/** The `component_stats` table that both `list_components` endpoints build:
    for each component seen, in first-seen order, its number of logs, its
    number of error logs, and the timestamp of its first log. How a log is
    filed under a component and what makes it an error differ between the
    two endpoints and are given per log as a `Seen` record. */
module ComponentStats {
  import opened Wrappers
  import opened PySeq
  import opened Tally

  /** One value of `component_stats`. */
  datatype Stats = Stats(logCount: nat, errorCount: nat, lastActivity: Option<string>)

  /** What the loop reads from one log: its component, whether it counts as
      an error, and its timestamp. */
  datatype Seen = Seen(component: string, isError: bool, timestamp: string)

  /** The dict `component_stats`, keys in insertion order. */
  datatype Table = Table(order: seq<string>, stats: map<string, Stats>)

  /** `not stats['last_activity']`: both `None` and the empty string are falsy. */
  predicate Unset(a: Option<string>) {
    a == None || a == Some("")
  }

  /** One pass of the loop: create the entry if missing, count the log,
      count it as an error, and take its timestamp if none is set yet. */
  function Record(t: Table, s: Seen): Table {
    var c := s.component;
    var u := if c in t.stats then t else Table(t.order + [c], t.stats[c := Stats(0, 0, None)]);
    var prev := u.stats[c];
    var next := Stats(prev.logCount + 1, prev.errorCount + (if s.isError then 1 else 0),
                      if Unset(prev.lastActivity) then Some(s.timestamp) else prev.lastActivity);
    Table(u.order, u.stats[c := next])
  }

  /** The table after the loop over `seen`. */
  function TableOf(seen: seq<Seen>): Table {
    if seen == [] then Table([], map[])
    else Record(TableOf(seen[..|seen| - 1]), seen[|seen| - 1])
  }

  /** The component of each log, in order. */
  function Components(seen: seq<Seen>): (r: seq<string>)
    ensures |r| == |seen| && forall i :: 0 <= i < |seen| ==> r[i] == seen[i].component
  {
    seq(|seen|, i requires 0 <= i < |seen| => seen[i].component)
  }

  /** The number of error logs filed under `k`. */
  function ErrorsOf(seen: seq<Seen>, k: string): nat {
    if seen == [] then 0
    else ErrorsOf(seen[..|seen| - 1], k) + (if seen[|seen| - 1].component == k && seen[|seen| - 1].isError then 1 else 0)
  }

  /** A log filed under `k` with a non-empty timestamp. */
  function Stamped(k: string): Seen -> bool {
    (s: Seen) => s.component == k && s.timestamp != ""
  }

  /** The `last_activity` the loop leaves for `k`: the first non-empty
      timestamp among `k`'s logs, or the empty string when all are empty. */
  function FirstStamp(seen: seq<Seen>, k: string): string {
    var j := FirstWhere(seen, Stamped(k));
    if j < |seen| then seen[j].timestamp else ""
  }

  lemma {:induction false} FirstWhereAppend(xs: seq<Seen>, x: Seen, p: Seen -> bool)
    ensures FirstWhere(xs + [x], p) ==
      if FirstWhere(xs, p) < |xs| then FirstWhere(xs, p) else if p(x) then |xs| else |xs| + 1
  {
    if xs != [] {
      FirstWhereAppend(xs[1..], x, p);
      assert (xs + [x])[1..] == xs[1..] + [x];
    }
  }

  /** The table agrees with the key count `c` of the components of `seen`,
      and holds for each key its error count and first non-empty timestamp. */
  ghost predicate Agrees(t: Table, c: Counter, seen: seq<Seen>) {
    && t.order == c.order
    && t.stats.Keys == c.count.Keys
    && forall k :: k in t.stats ==>
         && t.stats[k].logCount == c.count[k]
         && t.stats[k].errorCount == ErrorsOf(seen, k)
         && t.stats[k].lastActivity == Some(FirstStamp(seen, k))
  }

  /** A component not yet seen has no errors and no timestamp. */
  lemma Unseen(seen: seq<Seen>, k: string)
    requires k !in Components(seen)
    ensures ErrorsOf(seen, k) == 0 && FirstWhere(seen, Stamped(k)) == |seen|
  {
    ErrorsAtMostLogs(seen, k);
  }

  /** One log changes only its own component's entry, as the loop body says. */
  lemma RecordKey(t: Table, p: seq<Seen>, x: Seen, k: string)
    requires k in t.stats ==> t.stats[k].errorCount == ErrorsOf(p, k) && t.stats[k].lastActivity == Some(FirstStamp(p, k))
    requires k !in t.stats ==> k !in Components(p)
    requires k in Record(t, x).stats
    ensures Record(t, x).stats[k].errorCount == ErrorsOf(p + [x], k)
    ensures Record(t, x).stats[k].lastActivity == Some(FirstStamp(p + [x], k))
  {
    assert (p + [x])[..|p|] == p;
    FirstWhereAppend(p, x, Stamped(k));
    if k !in t.stats {
      Unseen(p, k);
    }
  }

  lemma {:induction false} TableSpec(seen: seq<Seen>)
    ensures Agrees(TableOf(seen), TallyOf(Components(seen)), seen)
  {
    if seen != [] {
      var p, x := seen[..|seen| - 1], seen[|seen| - 1];
      assert seen == p + [x];
      assert Components(seen)[..|seen| - 1] == Components(p);
      TableSpec(p);
      RecordAgrees(TableOf(p), p, x);
    }
  }

  /** One pass of the loop keeps the table in agreement with the key count. */
  lemma RecordAgrees(t: Table, p: seq<Seen>, x: Seen)
    requires Agrees(t, TallyOf(Components(p)), p)
    ensures Agrees(Record(t, x), Bump(TallyOf(Components(p)), x.component), p + [x])
  {
    TallySpec(Components(p));
    var r := Record(t, x);
    RecordBumps(t, TallyOf(Components(p)), x);
    forall k | k in r.stats
      ensures r.stats[k].errorCount == ErrorsOf(p + [x], k)
      ensures r.stats[k].lastActivity == Some(FirstStamp(p + [x], k))
    {
      RecordKey(t, p, x, k);
    }
  }

  /** The loop body counts a log as `Bump` counts a key. */
  lemma RecordBumps(t: Table, c: Counter, x: Seen)
    requires t.order == c.order && t.stats.Keys == c.count.Keys
    requires forall k :: k in t.stats ==> t.stats[k].logCount == c.count[k]
    ensures var r, d := Record(t, x), Bump(c, x.component);
      r.order == d.order && r.stats.Keys == d.count.Keys
      && forall k :: k in r.stats ==> r.stats[k].logCount == d.count[k]
  {
  }

  lemma {:induction false} ErrorsAtMostLogs(seen: seq<Seen>, k: string)
    ensures ErrorsOf(seen, k) <= Occurrences(Components(seen), k)
  {
    if seen != [] {
      var p := seen[..|seen| - 1];
      assert Components(seen)[..|seen| - 1] == Components(p);
      ErrorsAtMostLogs(p, k);
    }
  }

  /** `log_count` of each component, in insertion order. */
  function LogCounts(t: Table): seq<(string, nat)>
    requires forall k :: k in t.order ==> k in t.stats
  {
    seq(|t.order|, i requires 0 <= i < |t.order| => (t.order[i], t.stats[t.order[i]].logCount))
  }

  /** Every component seen has an entry, in first-seen order, and nothing else does. */
  lemma TableKeys(seen: seq<Seen>)
    ensures var t := TableOf(seen);
      && Distinct(t.order)
      && (forall k :: k in t.order <==> k in t.stats)
      && (forall k :: k in t.stats <==> exists i :: 0 <= i < |seen| && seen[i].component == k)
  {
    TableSpec(seen);
    TallySpec(Components(seen));
    forall k ensures k in Components(seen) <==> exists i :: 0 <= i < |seen| && seen[i].component == k {
      ComponentSeen(seen, k);
    }
  }

  lemma ComponentSeen(seen: seq<Seen>, k: string)
    ensures k in Components(seen) <==> exists i :: 0 <= i < |seen| && seen[i].component == k
  {
    if k in Components(seen) {
      var i :| 0 <= i < |seen| && Components(seen)[i] == k;
    }
  }

  /** Each component counts its own logs, and at most that many errors. */
  lemma TableCounts(seen: seq<Seen>)
    ensures var t := TableOf(seen);
      && (forall k :: k in t.stats ==> t.stats[k].logCount == Occurrences(Components(seen), k))
      && (forall k :: k in t.stats ==> t.stats[k].errorCount == ErrorsOf(seen, k))
      && (forall k :: k in t.stats ==> t.stats[k].errorCount <= t.stats[k].logCount)
  {
    var t := TableOf(seen);
    TableSpec(seen);
    TallySpec(Components(seen));
    forall k | k in t.stats ensures t.stats[k].errorCount <= t.stats[k].logCount {
      ErrorsAtMostLogs(seen, k);
    }
  }

  /** The log counts add up to the number of logs. */
  lemma TableTotal(seen: seq<Seen>)
    ensures forall k :: k in TableOf(seen).order ==> k in TableOf(seen).stats
    ensures SumCounts(LogCounts(TableOf(seen))) == |seen|
  {
    var keys := Components(seen);
    TableSpec(seen);
    TallyTotal(keys);
    assert LogCounts(TableOf(seen)) == Items(TallyOf(keys));
  }

  /** When every timestamp is non-empty, a component's `last_activity` is
      the timestamp of its first log. */
  lemma FirstLogStamp(seen: seq<Seen>, k: string)
    requires forall i :: 0 <= i < |seen| ==> seen[i].timestamp != ""
    requires k in Components(seen)
    ensures k in TableOf(seen).stats
    ensures TableOf(seen).stats[k].lastActivity == Some(seen[ListIndex(Components(seen), k)].timestamp)
  {
    TableSpec(seen);
    TallySpec(Components(seen));
    FirstStampIsFirstLog(seen, k);
  }

  lemma FirstStampIsFirstLog(seen: seq<Seen>, k: string)
    requires forall i :: 0 <= i < |seen| ==> seen[i].timestamp != ""
    requires k in Components(seen)
    ensures FirstWhere(seen, Stamped(k)) == ListIndex(Components(seen), k)
  {
    var l, j := ListIndex(Components(seen), k), FirstWhere(seen, Stamped(k));
    assert Stamped(k)(seen[l]);
  }

  /** The loop of `list_components`, over the records of the logs. */
  method Collect(seen: seq<Seen>) returns (order: seq<string>, stats: map<string, Stats>)
    ensures Table(order, stats) == TableOf(seen)
  {
    order, stats := [], map[];
    for i := 0 to |seen|
      invariant Table(order, stats) == TableOf(seen[..i])
    {
      var c := seen[i].component;
      if c !in stats {
        order := order + [c];
        stats := stats[c := Stats(0, 0, None)];
      }
      var st := stats[c];
      st := st.(logCount := st.logCount + 1);
      if seen[i].isError {
        st := st.(errorCount := st.errorCount + 1);
      }
      if Unset(st.lastActivity) {
        st := st.(lastActivity := Some(seen[i].timestamp));
      }
      stats := stats[c := st];
      assert seen[..i + 1][..i] == seen[..i];
    }
    assert seen[..|seen|] == seen;
  }
}
