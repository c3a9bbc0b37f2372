/** The dashboard's own logic: grouping search results into workflows by
    refresh id, the step list of a workflow and its overall status, the
    Socket.IO rooms a log update is broadcast to, and the log-server request
    the dashboard builds for its log and search pages. The HTTP calls
    themselves are not part of this model. */
module Dashboard {
  import opened Wrappers
  import opened Text
  import opened PySeq
  import opened Sorting
  import opened Tally

  /** The `metadata` of one search result; `None` is a missing key. */
  datatype Metadata = Metadata(refreshId: Option<string>, stepNumber: Option<int>, stepStatus: Option<string>,
                               duration: Option<real>)

  /** One entry of the search `results`. */
  datatype LogResult = LogResult(timestamp: Option<string>, message: Option<string>, level: Option<string>,
                                 metadata: Metadata)

  /** A refresh id is used only when truthy: present and not empty. */
  predicate HasRefreshId(e: LogResult) {
    e.metadata.refreshId.Some? && e.metadata.refreshId.value != ""
  }

  /** A step number is used only when truthy: present and not 0. */
  predicate HasStep(e: LogResult) {
    e.metadata.stepNumber.Some? && e.metadata.stepNumber.value != 0
  }

  // ---------------------------------------------------------------- workflows

  datatype WorkflowStep = WorkflowStep(step: int, status: Option<string>, duration: Option<real>,
                                       timestamp: Option<string>, message: Option<string>)

  datatype Workflow = Workflow(refreshId: string, steps: seq<WorkflowStep>, startTime: Option<string>, status: string)

  /** The dict `workflows`, keys in insertion order. */
  datatype Workflows = Workflows(order: seq<string>, table: map<string, Workflow>)

  function StepOf(e: LogResult): WorkflowStep
    requires HasStep(e)
  {
    WorkflowStep(e.metadata.stepNumber.value, e.metadata.stepStatus, e.metadata.duration, e.timestamp, e.message)
  }

  /** One pass of the loop of `process_workflow_data`. */
  function AddEntry(w: Workflows, e: LogResult): Workflows {
    if !HasRefreshId(e) then w
    else
      var id := e.metadata.refreshId.value;
      var u := if id in w.table then w
               else Workflows(w.order + [id], w.table[id := Workflow(id, [], e.timestamp, "in_progress")]);
      if HasStep(e) then Workflows(u.order, u.table[id := u.table[id].(steps := u.table[id].steps + [StepOf(e)])])
      else u
  }

  /** The dict after the loop over `results`. */
  function WorkflowsOf(results: seq<LogResult>): Workflows {
    if results == [] then Workflows([], map[])
    else AddEntry(WorkflowsOf(results[..|results| - 1]), results[|results| - 1])
  }

  /** `list(workflows.values())`. */
  function WorkflowList(w: Workflows): seq<Workflow>
    requires forall id :: id in w.order ==> id in w.table
  {
    seq(|w.order|, i requires 0 <= i < |w.order| => w.table[w.order[i]])
  }

  /** The truthy refresh ids of the results, in order, repeats included. */
  function RefreshIds(results: seq<LogResult>): seq<string> {
    if results == [] then []
    else
      var e := results[|results| - 1];
      RefreshIds(results[..|results| - 1]) + (if HasRefreshId(e) then [e.metadata.refreshId.value] else [])
  }

  /** A result carrying the refresh id `id`. */
  function HasId(id: string): LogResult -> bool {
    (e: LogResult) => e.metadata.refreshId == Some(id)
  }

  /** The steps logged under `id`, in the order of the results. */
  function StepsFor(results: seq<LogResult>, id: string): seq<WorkflowStep> {
    if results == [] then []
    else
      var e := results[|results| - 1];
      StepsFor(results[..|results| - 1], id) + (if HasId(id)(e) && HasStep(e) then [StepOf(e)] else [])
  }

  /** The timestamp of the first result carrying `id`. */
  function StartTime(results: seq<LogResult>, id: string): Option<string> {
    var j := FirstWhere(results, HasId(id));
    if j < |results| then results[j].timestamp else None
  }

  /** The dict agrees with the key count of the truthy refresh ids and holds,
      for each id, its steps and the timestamp of its first result. */
  ghost predicate Agrees(w: Workflows, c: Counter, results: seq<LogResult>) {
    && w.order == c.order
    && w.table.Keys == c.count.Keys
    && forall id :: id in w.table ==>
         w.table[id] == Workflow(id, StepsFor(results, id), StartTime(results, id), "in_progress")
  }

  lemma {:induction false} FirstWhereAppend(xs: seq<LogResult>, x: LogResult, p: LogResult -> bool)
    ensures FirstWhere(xs + [x], p) ==
      if FirstWhere(xs, p) < |xs| then FirstWhere(xs, p) else if p(x) then |xs| else |xs| + 1
  {
    if xs != [] {
      FirstWhereAppend(xs[1..], x, p);
      assert (xs + [x])[1..] == xs[1..] + [x];
    }
  }

  /** An id is among the refresh ids exactly when some result carries it;
      one not among them has no steps. */
  lemma {:induction false} IdFound(results: seq<LogResult>, id: string)
    requires id != ""
    ensures id in RefreshIds(results) <==> FirstWhere(results, HasId(id)) < |results|
    ensures id !in RefreshIds(results) ==> StepsFor(results, id) == []
  {
    if results != [] {
      var p, e := results[..|results| - 1], results[|results| - 1];
      assert results == p + [e];
      IdFound(p, id);
      FirstWhereAppend(p, e, HasId(id));
    }
  }

  /** One result changes only its own workflow. */
  lemma AddEntryKey(w: Workflows, p: seq<LogResult>, e: LogResult, id: string)
    requires id in w.table ==> w.table[id] == Workflow(id, StepsFor(p, id), StartTime(p, id), "in_progress")
    requires id in w.table <==> id in RefreshIds(p)
    requires id != "" && id in AddEntry(w, e).table
    ensures AddEntry(w, e).table[id] == Workflow(id, StepsFor(p + [e], id), StartTime(p + [e], id), "in_progress")
  {
    assert (p + [e])[..|p|] == p;
    FirstWhereAppend(p, e, HasId(id));
    IdFound(p, id);
    if id !in w.table {
      assert HasId(id)(e);
      assert (p + [e])[|p|] == e;
      assert StartTime(p + [e], id) == e.timestamp;
      assert StepsFor(p + [e], id) == if HasStep(e) then [StepOf(e)] else [];
    }
  }

  /** The dict's keys follow the key count of the refresh ids. */
  lemma AddEntryKeys(w: Workflows, c: Counter, e: LogResult)
    requires w.order == c.order && w.table.Keys == c.count.Keys
    ensures var c' := if HasRefreshId(e) then Bump(c, e.metadata.refreshId.value) else c;
      AddEntry(w, e).order == c'.order && AddEntry(w, e).table.Keys == c'.count.Keys
  {
  }

  /** One more result extends the refresh ids by its own, if truthy. */
  lemma RefreshIdsLast(p: seq<LogResult>, e: LogResult)
    ensures TallyOf(RefreshIds(p + [e])) ==
      if HasRefreshId(e) then Bump(TallyOf(RefreshIds(p)), e.metadata.refreshId.value) else TallyOf(RefreshIds(p))
  {
    assert (p + [e])[..|p|] == p;
    var ids := RefreshIds(p);
    if HasRefreshId(e) {
      var ids' := ids + [e.metadata.refreshId.value];
      assert RefreshIds(p + [e]) == ids';
      assert ids'[..|ids|] == ids;
      assert TallyOf(ids') == Bump(TallyOf(ids), e.metadata.refreshId.value);
    } else {
      assert RefreshIds(p + [e]) == ids;
    }
  }

  lemma {:induction false} WorkflowsSpec(results: seq<LogResult>)
    ensures Agrees(WorkflowsOf(results), TallyOf(RefreshIds(results)), results)
  {
    if results != [] {
      var p, e := results[..|results| - 1], results[|results| - 1];
      assert results == p + [e];
      WorkflowsSpec(p);
      TallySpec(RefreshIds(p));
      RefreshIdsNonEmpty(p);
      var w := WorkflowsOf(p);
      AddEntryKeys(w, TallyOf(RefreshIds(p)), e);
      RefreshIdsLast(p, e);
      forall id | id in AddEntry(w, e).table
        ensures AddEntry(w, e).table[id] == Workflow(id, StepsFor(results, id), StartTime(results, id), "in_progress")
      {
        AddEntryKey(w, p, e, id);
      }
    }
  }

  lemma {:induction false} RefreshIdsNonEmpty(results: seq<LogResult>)
    ensures forall id :: id in RefreshIds(results) ==> id != ""
  {
    if results != [] {
      RefreshIdsNonEmpty(results[..|results| - 1]);
    }
  }

  /** `process_workflow_data`. */
  method ProcessWorkflowData(results: seq<LogResult>) returns (workflows: seq<Workflow>)
    ensures forall id :: id in WorkflowsOf(results).order ==> id in WorkflowsOf(results).table
    ensures workflows == WorkflowList(WorkflowsOf(results))
  {
    var order: seq<string> := [];
    var table: map<string, Workflow> := map[];
    for i := 0 to |results|
      invariant Workflows(order, table) == WorkflowsOf(results[..i])
    {
      var e := results[i];
      var refreshId := e.metadata.refreshId;
      if refreshId.Some? && refreshId.value != "" {
        var id := refreshId.value;
        if id !in table {
          order := order + [id];
          table := table[id := Workflow(id, [], e.timestamp, "in_progress")];
        }
        var stepNumber := e.metadata.stepNumber;
        if stepNumber.Some? && stepNumber.value != 0 {
          var wf := table[id];
          table := table[id := wf.(steps := wf.steps + [StepOf(e)])];
        }
      }
      assert results[..i + 1][..i] == results[..i];
    }
    assert results[..|results|] == results;
    WorkflowsSpec(results);
    TallySpec(RefreshIds(results));
    workflows := seq(|order|, i requires 0 <= i < |order| => table[order[i]]);
  }

  /** Each workflow listed is `in_progress`, starts at the timestamp of the
      first result carrying its refresh id, and holds the steps logged under
      that id in order. */
  lemma WorkflowDataEntries(results: seq<LogResult>)
    ensures forall id :: id in WorkflowsOf(results).order ==> id in WorkflowsOf(results).table
    ensures var r := WorkflowList(WorkflowsOf(results));
      forall i :: 0 <= i < |r| ==>
        && r[i].refreshId in RefreshIds(results) && r[i].status == "in_progress"
        && r[i].steps == StepsFor(results, r[i].refreshId)
        && r[i].startTime == StartTime(results, r[i].refreshId)
  {
    WorkflowsSpec(results);
    TallySpec(RefreshIds(results));
  }

  /** There is one workflow per distinct truthy refresh id, in the order the
      ids first occur; results without a truthy refresh id start none. */
  lemma WorkflowDataOrder(results: seq<LogResult>)
    ensures forall id :: id in WorkflowsOf(results).order ==> id in WorkflowsOf(results).table
    ensures var r, ids := WorkflowList(WorkflowsOf(results)), RefreshIds(results);
      && (forall i :: 0 <= i < |r| ==> r[i].refreshId == WorkflowsOf(results).order[i] && r[i].refreshId in ids)
      && (forall i, j :: 0 <= i < j < |r| ==> ListIndex(ids, r[i].refreshId) < ListIndex(ids, r[j].refreshId))
      && (forall id :: id in ids ==> exists i :: 0 <= i < |r| && r[i].refreshId == id)
  {
    var ids := RefreshIds(results);
    WorkflowsSpec(results);
    TallySpec(ids);
    TallyFirstSeen(ids);
    ListFollowsOrder(WorkflowsOf(results), ids);
  }

  /** A table listed in the first-seen order of `ids`, whose entries carry
      their own keys, lists one workflow per id in that order. */
  lemma ListFollowsOrder(w: Workflows, ids: seq<string>)
    requires forall id :: id in w.order ==> id in w.table
    requires forall id :: id in w.table ==> w.table[id].refreshId == id
    requires forall id :: id in w.order <==> id in ids
    requires forall i, j :: 0 <= i < j < |w.order| ==> ListIndex(ids, w.order[i]) < ListIndex(ids, w.order[j])
    ensures var r := WorkflowList(w);
      && (forall i :: 0 <= i < |r| ==> r[i].refreshId == w.order[i] && r[i].refreshId in ids)
      && (forall i, j :: 0 <= i < j < |r| ==> ListIndex(ids, r[i].refreshId) < ListIndex(ids, r[j].refreshId))
      && (forall id :: id in ids ==> exists i :: 0 <= i < |r| && r[i].refreshId == id)
  {
    var r := WorkflowList(w);
    forall id | id in ids ensures exists i :: 0 <= i < |r| && r[i].refreshId == id {
      var i :| 0 <= i < |w.order| && w.order[i] == id;
      assert r[i].refreshId == id;
    }
  }

  /** Every step of a workflow has a non-zero step number. */
  lemma {:induction false} StepsForNonZero(results: seq<LogResult>, id: string)
    ensures forall s :: s in StepsFor(results, id) ==> s.step != 0
  {
    if results != [] {
      StepsForNonZero(results[..|results| - 1], id);
    }
  }

  // ---------------------------------------------------------------- steps

  datatype DetailedStep = DetailedStep(step: int, status: string, duration: Option<real>, timestamp: Option<string>,
                                       message: Option<string>, level: Option<string>)

  /** The row of one result with a step: the status defaults to `unknown`. */
  function DetailedStepOf(e: LogResult): DetailedStep
    requires HasStep(e)
  {
    DetailedStep(e.metadata.stepNumber.value,
                 if e.metadata.stepStatus.Some? then e.metadata.stepStatus.value else "unknown",
                 e.metadata.duration, e.timestamp, e.message, e.level)
  }

  /** The rows of the results with a truthy step number, in order. */
  function StepRows(results: seq<LogResult>): seq<DetailedStep> {
    if results == [] then []
    else
      var e := results[|results| - 1];
      StepRows(results[..|results| - 1]) + (if HasStep(e) then [DetailedStepOf(e)] else [])
  }

  /** `key=lambda x: x['step']`, ascending; `sorted` is stable. */
  function ByStep(): (DetailedStep, DetailedStep) -> bool {
    (a: DetailedStep, b: DetailedStep) => a.step <= b.step
  }

  lemma ByStepTotal()
    ensures Total(ByStep())
  {
  }

  /** `process_workflow_steps`. */
  function ProcessWorkflowSteps(results: seq<LogResult>): seq<DetailedStep> {
    SortBy(StepRows(results), ByStep())
  }

  lemma {:induction false} StepRowsSpec(results: seq<LogResult>)
    ensures forall s :: s in StepRows(results) ==> s.step != 0
    ensures forall i :: 0 <= i < |results| && HasStep(results[i]) ==> DetailedStepOf(results[i]) in StepRows(results)
  {
    if results != [] {
      var p := results[..|results| - 1];
      StepRowsSpec(p);
      forall i | 0 <= i < |results| && HasStep(results[i]) ensures DetailedStepOf(results[i]) in StepRows(results) {
        if i < |p| {
          assert results[i] == p[i];
        }
      }
    }
  }

  /** The steps come out in ascending step order, each a result with a
      non-zero step number, and every such result is among them. */
  lemma ProcessWorkflowStepsSpec(results: seq<LogResult>)
    ensures var r := ProcessWorkflowSteps(results);
      && (forall i :: 0 < i < |r| ==> r[i - 1].step <= r[i].step)
      && multiset(r) == multiset(StepRows(results))
      && (forall s :: s in r ==> s.step != 0)
      && (forall i :: 0 <= i < |results| && HasStep(results[i]) ==> DetailedStepOf(results[i]) in r)
  {
    StepRowsSpec(results);
    ByStepTotal();
    SortBySpec(StepRows(results), ByStep());
    var r := ProcessWorkflowSteps(results);
    forall s | s in r ensures s in StepRows(results) {
      assert s in multiset(r);
    }
    forall i | 0 <= i < |results| && HasStep(results[i]) ensures DetailedStepOf(results[i]) in r {
      assert DetailedStepOf(results[i]) in multiset(StepRows(results));
    }
  }

  // ---------------------------------------------------------------- status

  /** How many steps have the status `status`. */
  function CountStatus(steps: seq<DetailedStep>, status: string): (n: nat)
    ensures n <= |steps|
  {
    if steps == [] then 0 else (if steps[0].status == status then 1 else 0) + CountStatus(steps[1..], status)
  }

  /** `determine_workflow_status`. */
  function WorkflowStatus(steps: seq<DetailedStep>): string {
    if steps == [] then "unknown"
    else if CountStatus(steps, "failed") > 0 then "failed"
    else if CountStatus(steps, "completed") >= 8 then "completed"
    else "in_progress"
  }

  lemma {:induction false} CountStatusPositive(steps: seq<DetailedStep>, status: string)
    ensures CountStatus(steps, status) > 0 <==> exists i :: 0 <= i < |steps| && steps[i].status == status
  {
    if steps != [] {
      CountStatusPositive(steps[1..], status);
      if exists i :: 0 <= i < |steps[1..]| && steps[1..][i].status == status {
        var i :| 0 <= i < |steps[1..]| && steps[1..][i].status == status;
        assert steps[i + 1].status == status;
      }
      if exists i :: 0 <= i < |steps| && steps[i].status == status {
        var i :| 0 <= i < |steps| && steps[i].status == status;
        assert i > 0 ==> steps[1..][i - 1].status == status;
      }
    }
  }

  /** No steps is `unknown`, and a failed step makes the workflow `failed`
      whatever else completed. */
  lemma WorkflowStatusSpec(steps: seq<DetailedStep>)
    ensures WorkflowStatus(steps) == "unknown" <==> steps == []
    ensures WorkflowStatus(steps) == "failed" <==> exists i :: 0 <= i < |steps| && steps[i].status == "failed"
  {
    CountStatusPositive(steps, "failed");
  }

  /** Without a failed step, eight completed steps make the workflow
      `completed`, and fewer leave it `in_progress`. */
  lemma WorkflowCompleted(steps: seq<DetailedStep>)
    ensures WorkflowStatus(steps) == "completed" <==>
      (forall i :: 0 <= i < |steps| ==> steps[i].status != "failed") && CountStatus(steps, "completed") >= 8
    ensures WorkflowStatus(steps) == "completed" ==> |steps| >= 8
  {
    CountStatusPositive(steps, "failed");
  }

  lemma {:induction false} CountStatusInsert(x: DetailedStep, ys: seq<DetailedStep>, status: string)
    ensures CountStatus(Insert(x, ys, ByStep()), status) == (if x.status == status then 1 else 0) + CountStatus(ys, status)
  {
    if ys != [] && !ByStep()(x, ys[0]) {
      CountStatusInsert(x, ys[1..], status);
    }
  }

  lemma {:induction false} CountStatusSort(steps: seq<DetailedStep>, status: string)
    ensures CountStatus(SortBy(steps, ByStep()), status) == CountStatus(steps, status)
  {
    if steps != [] {
      CountStatusSort(steps[1..], status);
      CountStatusInsert(steps[0], SortBy(steps[1..], ByStep()), status);
    }
  }

  /** Sorting the steps does not change the workflow's status. */
  lemma StatusIgnoresOrder(results: seq<LogResult>)
    ensures WorkflowStatus(ProcessWorkflowSteps(results)) == WorkflowStatus(StepRows(results))
  {
    CountStatusSort(StepRows(results), "failed");
    CountStatusSort(StepRows(results), "completed");
  }

  // ---------------------------------------------------------------- rooms

  /** The room of the subscribers to `source` and `level`. */
  function Room(source: string, level: string): string {
    "logs_" + source + "_" + level
  }

  /** `handle_subscribe_logs`: `source` and `level` default to `all`. */
  function SubscriptionRoom(source: Option<string>, level: Option<string>): string {
    Room(source.GetOr("all"), level.GetOr("all"))
  }

  /** The room a subscription joins is one an update is broadcast to exactly
      when its source and level, defaulting to `all`, are each `all` or the
      update's own; the converse holds for source names without `_`. */
  lemma SubscriptionRoomReceives(subSource: Option<string>, subLevel: Option<string>,
                                 source: Option<string>, level: Option<string>)
    ensures var ss, sl := subSource.GetOr("all"), subLevel.GetOr("all");
      var s, l := source.GetOr("unknown"), level.GetOr("info");
      (ss == "all" || ss == s) && (sl == "all" || sl == l) ==> SubscriptionRoom(subSource, subLevel) in BroadcastRooms(source, level)
    ensures var ss, sl := subSource.GetOr("all"), subLevel.GetOr("all");
      var s, l := source.GetOr("unknown"), level.GetOr("info");
      '_' !in ss && '_' !in s && SubscriptionRoom(subSource, subLevel) in BroadcastRooms(source, level) ==>
        (ss == "all" || ss == s) && (sl == "all" || sl == l)
  {
    SubscriberReceives(subSource.GetOr("all"), subLevel.GetOr("all"), source, level);
  }

  /** `broadcast_log_update`: the rooms of the entry's source and level,
      defaulting to `unknown` and `info`, each also with `all` in its place. */
  function BroadcastRooms(source: Option<string>, level: Option<string>): (rooms: seq<string>)
    ensures |rooms| == 4
  {
    var s, l := source.GetOr("unknown"), level.GetOr("info");
    [Room("all", "all"), Room(s, "all"), Room("all", l), Room(s, l)]
  }

  /** Two names free of `_`, each followed by `_`, split a string the same way. */
  lemma {:induction false} SplitAtUnderscore(s1: string, l1: string, s2: string, l2: string)
    requires '_' !in s1 && '_' !in s2
    requires s1 + "_" + l1 == s2 + "_" + l2
    ensures s1 == s2 && l1 == l2
  {
    var t1, t2 := s1 + "_" + l1, s2 + "_" + l2;
    if s1 == [] || s2 == [] {
      assert t1[0] == t2[0];
      assert s1 == [] && s2 == [];
      assert l1 == t1[1..] && l2 == t2[1..];
    } else {
      assert t1[1..] == s1[1..] + "_" + l1 && t2[1..] == s2[1..] + "_" + l2;
      SplitAtUnderscore(s1[1..], l1, s2[1..], l2);
      assert s1 == [s1[0]] + s1[1..] && s2 == [s2[0]] + s2[1..];
      assert s1[0] == t1[0] == t2[0] == s2[0];
    }
  }

  lemma RoomInjective(s1: string, l1: string, s2: string, l2: string)
    requires '_' !in s1 && '_' !in s2
    requires Room(s1, l1) == Room(s2, l2)
    ensures s1 == s2 && l1 == l2
  {
    var r := Room(s1, l1);
    assert r == "logs_" + (s1 + "_" + l1) && r == "logs_" + (s2 + "_" + l2);
    assert s1 + "_" + l1 == r[5..] == s2 + "_" + l2;
    SplitAtUnderscore(s1, l1, s2, l2);
  }

  /** A subscriber receives a broadcast when its source and level are each
      `all` or equal to the entry's; for source names without `_` (room names
      join the two parts with `_`) it receives nothing else. */
  lemma SubscriberReceives(subSource: string, subLevel: string, source: Option<string>, level: Option<string>)
    ensures var s, l := source.GetOr("unknown"), level.GetOr("info");
      (subSource == "all" || subSource == s) && (subLevel == "all" || subLevel == l) ==>
        Room(subSource, subLevel) in BroadcastRooms(source, level)
    ensures var s, l := source.GetOr("unknown"), level.GetOr("info");
      '_' !in subSource && '_' !in s && Room(subSource, subLevel) in BroadcastRooms(source, level) ==>
        (subSource == "all" || subSource == s) && (subLevel == "all" || subLevel == l)
  {
    var s, l := source.GetOr("unknown"), level.GetOr("info");
    if '_' !in subSource && '_' !in s && Room(subSource, subLevel) in BroadcastRooms(source, level) {
      var rooms := BroadcastRooms(source, level);
      var i :| 0 <= i < 4 && rooms[i] == Room(subSource, subLevel);
      if i == 0 {
        RoomInjective(subSource, subLevel, "all", "all");
      } else if i == 1 {
        RoomInjective(subSource, subLevel, s, "all");
      } else if i == 2 {
        RoomInjective(subSource, subLevel, "all", l);
      } else {
        RoomInjective(subSource, subLevel, s, l);
      }
    }
  }

  /** Room names do not keep source and level apart when the source holds
      `_`: a subscriber to source `auto` and level `x_info` is sent the
      updates of source `auto_x` at level `info`. */
  lemma RoomsCanCollide()
    ensures Room("auto", "x_info") in BroadcastRooms(Some("auto_x"), Some("info"))
  {
    assert Room("auto", "x_info") == Room("auto_x", "info");
  }

  /** A room that keeps its source and level apart, as the subscriptions
      evidently mean them. */
  datatype RoomId = RoomId(source: string, level: string)

  /** The four rooms of a broadcast, each naming its source and level apart. */
  function IntendedBroadcastRooms(source: Option<string>, level: Option<string>): (rooms: seq<RoomId>)
    ensures |rooms| == 4
  {
    var s, l := source.GetOr("unknown"), level.GetOr("info");
    [RoomId("all", "all"), RoomId(s, "all"), RoomId("all", l), RoomId(s, l)]
  }

  /** With rooms kept apart, a subscriber receives a broadcast exactly when
      its source and level are each `all` or equal to the entry's, whatever
      characters the names hold. */
  lemma IntendedSubscriberReceives(subSource: string, subLevel: string, source: Option<string>, level: Option<string>)
    ensures var s, l := source.GetOr("unknown"), level.GetOr("info");
      RoomId(subSource, subLevel) in IntendedBroadcastRooms(source, level) <==>
        (subSource == "all" || subSource == s) && (subLevel == "all" || subLevel == l)
  {
    var rooms := IntendedBroadcastRooms(source, level);
    if RoomId(subSource, subLevel) in rooms {
      var i :| 0 <= i < 4 && rooms[i] == RoomId(subSource, subLevel);
    }
  }

  // ---------------------------------------------------------------- requests

  /** `get_dashboard_logs`: the log-server path, chosen by the first of
      component and application that is non-empty. */
  function LogsEndpoint(host: string, application: string, component: string): (e: string)
    ensures StartsWith(e, "/logger/") && EndsWith(e, host)
  {
    if component != "" then "/logger/" + component + "/" + host
    else if application != "" then "/logger/host=" + host
    else "/logger/search/" + host
  }

  /** The query of `get_dashboard_logs`: `limit` and `time` always, the
      others only when non-empty. */
  function LogsParams(limit: string, time: string, application: string, level: string, search: string): map<string, string> {
    var p := map["limit" := limit, "time" := time];
    var p := if application != "" then p["application" := application] else p;
    var p := if level != "" then p["level" := level] else p;
    if search != "" then p["search" := search] else p
  }

  /** The component wins over the application, and a request naming
      neither goes to the search route; an optional parameter is sent
      exactly when it is non-empty, with its own value. */
  lemma LogsRequestSpec(host: string, limit: string, time: string, application: string, level: string, search: string,
                        component: string)
    ensures component != "" ==> LogsEndpoint(host, application, component) == "/logger/" + component + "/" + host
    ensures component == "" && application != "" ==> LogsEndpoint(host, application, component) == "/logger/host=" + host
    ensures component == "" && application == "" ==> LogsEndpoint(host, application, component) == "/logger/search/" + host
    ensures var p := LogsParams(limit, time, application, level, search);
      && p["limit"] == limit && p["time"] == time
      && ("application" in p <==> application != "") && ("level" in p <==> level != "") && ("search" in p <==> search != "")
      && (application != "" ==> p["application"] == application)
      && (level != "" ==> p["level"] == level)
      && (search != "" ==> p["search"] == search)
      && p.Keys <= {"limit", "time", "application", "level", "search"}
  {
  }

  /** What `search_dashboard_logs` does with its arguments: answer 400, or
      query the log server at `path` with `params`. */
  datatype SearchOutcome = BadRequest(code: int) | Query(path: string, params: map<string, string>)

  /** `search_dashboard_logs`: 400 without any of `q`, `pattern` and
      `refresh_id`; otherwise the query for `/logger/search/<host>`. */
  function SearchRequest(q: string, host: string, pattern: string, level: string, refreshId: string,
                         time: string, limit: string): SearchOutcome {
    if q == "" && pattern == "" && refreshId == "" then BadRequest(400)
    else
      var p := map["limit" := limit, "time" := time];
      var p := if q != "" then p["search" := q] else p;
      var p := if pattern != "" then p["pattern" := pattern] else p;
      var p := if level != "" then p["level" := level] else p;
      var p := if refreshId != "" then p["refresh_id" := refreshId] else p;
      Query("/logger/search/" + host, p)
  }

  /** The search is refused with 400 exactly when `q`, `pattern` and
      `refresh_id` are all empty; otherwise each non-empty one is sent (`q`
      as `search`). */
  lemma SearchRequestSpec(q: string, host: string, pattern: string, level: string, refreshId: string,
                          time: string, limit: string)
    ensures var r := SearchRequest(q, host, pattern, level, refreshId, time, limit);
      && (r == BadRequest(400) <==> q == "" && pattern == "" && refreshId == "")
      && (r.Query? ==> r.path == "/logger/search/" + host)
      && (r.Query? ==> ("search" in r.params <==> q != "") && ("pattern" in r.params <==> pattern != ""))
      && (r.Query? ==> ("refresh_id" in r.params <==> refreshId != "") && ("level" in r.params <==> level != ""))
      && (r.Query? && q != "" ==> r.params["search"] == q)
      && (r.Query? && refreshId != "" ==> r.params["refresh_id"] == refreshId)
  {
  }
}
