/** The watchdog side of the log server: a read cursor per log file that
    hands every new non-blank line to the processor once, the set of watched
    paths, and the running flag. The file system is a parameter mapping each
    readable path to its text; directory scans are given as their results. */
module FileMonitor {
  import opened Text
  import Paths

  // ---------------------------------------------------------------- events

  datatype EventKind = Modified | Created | Deleted | Moved

  /** A watchdog event: its kind, whether it is about a directory, its path. */
  datatype Event = Event(kind: EventKind, isDirectory: bool, srcPath: string)

  /** `on_modified` reads a file only for a modification of a non-directory
      whose path ends in `.log`. */
  predicate Handled(e: Event) {
    e.kind == Modified && !e.isDirectory && EndsWith(e.srcPath, ".log")
  }

  // ---------------------------------------------------------------- readlines

  /** `f.readlines()`: the text cut after every line break; only the last
      line may lack one, and no line is empty. */
  function ReadLines(s: string): (lines: seq<string>)
    ensures (lines == []) == (s == [])
    ensures forall k :: 0 <= k < |lines| ==> lines[k] != []
    ensures forall k :: 0 <= k < |lines| - 1 ==> lines[k][|lines[k]| - 1] == '\n'
    decreases |s|
  {
    if s == [] then []
    else if '\n' !in s then [s]
    else
      var i := IndexOf(s, '\n');
      var rest := ReadLines(s[i + 1..]);
      [s[..i + 1]] + rest
  }

  /** The lines put back together. */
  function Concat(lines: seq<string>): string {
    if lines == [] then "" else lines[0] + Concat(lines[1..])
  }

  /** Reading lines loses and adds nothing: the lines put back together are the text. */
  lemma {:induction false} ReadLinesConcat(s: string)
    ensures Concat(ReadLines(s)) == s
    decreases |s|
  {
    if s != [] && '\n' in s {
      var i := IndexOf(s, '\n');
      ReadLinesConcat(s[i + 1..]);
      assert s == s[..i + 1] + s[i + 1..];
    }
  }

  /** Text that ends at a line break reads as its own lines followed by the
      lines of whatever is appended to it. */
  lemma {:induction false} ReadLinesAppend(a: string, b: string)
    requires a == [] || a[|a| - 1] == '\n'
    ensures ReadLines(a + b) == ReadLines(a) + ReadLines(b)
    decreases |a|
  {
    if a == [] {
      assert a + b == b;
    } else {
      var i := FirstLineOf(a, b);
      var first, rest := a[..i + 1], a[i + 1..];
      ReadLinesAppend(rest, b);
      SeqAssoc([first], ReadLines(rest), ReadLines(b));
    }
  }

  lemma SeqAssoc(x: seq<string>, y: seq<string>, z: seq<string>)
    ensures x + (y + z) == x + y + z
  {
  }

  /** The first line of text ending at a line break is also the first line
      of anything that extends it. */
  lemma FirstLineOf(a: string, b: string) returns (i: nat)
    requires a != [] && a[|a| - 1] == '\n'
    ensures i < |a| && var rest := a[i + 1..]; rest == [] || rest[|rest| - 1] == '\n'
    ensures ReadLines(a) == [a[..i + 1]] + ReadLines(a[i + 1..])
    ensures ReadLines(a + b) == [a[..i + 1]] + ReadLines(a[i + 1..] + b)
  {
    assert a[|a| - 1] in a;
    i := IndexOf(a, '\n');
    assert (a + b)[i] == '\n' && '\n' !in (a + b)[..i] by {
      assert (a + b)[..i] == a[..i];
    }
    IndexOfUnique(a + b, '\n', i);
    assert (a + b)[..i + 1] == a[..i + 1];
    assert (a + b)[i + 1..] == a[i + 1..] + b;
  }

  // ---------------------------------------------------------------- deliveries

  /** One call of `processor.process_log_line(file_path, line)`. */
  datatype Delivery = Delivery(path: string, line: string)

  /** The calls the loop over the new lines makes: each line stripped, the
      blank ones skipped, the rest handed on in file order. */
  function Deliveries(path: string, lines: seq<string>): (r: seq<Delivery>)
    ensures |r| <= |lines|
    ensures forall k :: 0 <= k < |r| ==> r[k].path == path && r[k].line != ""
    decreases |lines|
  {
    if lines == [] then []
    else
      var rest := Deliveries(path, lines[..|lines| - 1]);
      var line := Strip(lines[|lines| - 1]);
      if line != "" then rest + [Delivery(path, line)] else rest
  }

  /** The deliveries of two runs of lines are those of the first, then those of the second. */
  lemma {:induction false} DeliveriesAppend(path: string, a: seq<string>, b: seq<string>)
    ensures Deliveries(path, a + b) == Deliveries(path, a) + Deliveries(path, b)
    decreases |b|
  {
    if b == [] {
      assert a + b == a;
    } else {
      var b' := b[..|b| - 1];
      assert (a + b)[..|a + b| - 1] == a + b';
      DeliveriesAppend(path, a, b');
    }
  }

  /** One more line of the loop adds that line's delivery. */
  lemma DeliveriesNext(path: string, lines: seq<string>, i: nat, d0: seq<Delivery>)
    requires i < |lines|
    ensures d0 + Deliveries(path, lines[..i + 1]) == (d0 + Deliveries(path, lines[..i])) + Deliveries(path, [lines[i]])
  {
    assert lines[..i + 1] == lines[..i] + [lines[i]];
    DeliveriesAppend(path, lines[..i], [lines[i]]);
    Assoc(d0, Deliveries(path, lines[..i]), Deliveries(path, [lines[i]]));
  }

  /** A single line is delivered, stripped, exactly when it is not blank. */
  lemma DeliveriesOne(path: string, line: string)
    ensures Deliveries(path, [line]) == if Strip(line) != "" then [Delivery(path, Strip(line))] else []
  {
    assert [line][..0] == [];
  }

  lemma UpdateTwice<K, V>(m: map<K, V>, k: K, v1: V, v2: V)
    ensures m[k := v1][k := v2] == m[k := v2]
  {
  }

  lemma Assoc<T>(a: seq<T>, b: seq<T>, c: seq<T>)
    ensures (a + b) + c == a + (b + c)
  {
  }

  // ---------------------------------------------------------------- the read cursor

  /** What the handler has done so far: the read position per path and every
      delivery made, in order. */
  datatype HandlerState = HandlerState(positions: map<string, nat>, delivered: seq<Delivery>)

  /** `self.file_positions.get(file_path, 0)`. */
  function Position(s: HandlerState, path: string): nat {
    if path in s.positions then s.positions[path] else 0
  }

  /** The text after the stored position; a position past the end reads nothing. */
  function Unread(s: HandlerState, path: string, content: string): string {
    var pos := Position(s, path);
    if pos <= |content| then content[pos..] else ""
  }

  /** `_process_log_file`: a path that cannot be opened changes nothing (the
      error is logged); otherwise, when there are new lines, the position
      moves to the end of the file and the new non-blank lines are delivered. */
  function Process(s: HandlerState, path: string, fs: map<string, string>): HandlerState {
    if path !in fs then s
    else
      var lines := ReadLines(Unread(s, path, fs[path]));
      if lines == [] then s
      else HandlerState(s.positions[path := |fs[path]|], s.delivered + Deliveries(path, lines))
  }

  /** `on_modified`. */
  function OnEvent(s: HandlerState, e: Event, fs: map<string, string>): HandlerState {
    if Handled(e) then Process(s, e.srcPath, fs) else s
  }

  /** A second event on a file that has not changed since the first delivers
      nothing and moves nothing. */
  lemma ProcessIdempotent(s: HandlerState, path: string, fs: map<string, string>)
    ensures Process(Process(s, path, fs), path, fs) == Process(s, path, fs)
  {
    var t := Process(s, path, fs);
    if path in fs && t != s {
      assert Position(t, path) == |fs[path]|;
      assert Unread(t, path, fs[path]) == [];
    }
  }

  /** Nothing is lost and nothing repeated while a file grows: reading it at
      a line boundary and again after more text is appended delivers exactly
      what one read of the grown file would, in file order, and leaves the
      same position. */
  lemma GrowthDeliversOnce(s: HandlerState, path: string, c: string, e: string)
    requires Position(s, path) <= |c|
    requires Position(s, path) == |c| || c[|c| - 1] == '\n'
    ensures Process(Process(s, path, map[path := c]), path, map[path := c + e]) == Process(s, path, map[path := c + e])
  {
    var pos := Position(s, path);
    var first := c[pos..];
    var grown := map[path := c + e];
    assert Unread(s, path, c) == first;
    assert Unread(s, path, c + e) == first + e by {
      assert (c + e)[pos..] == c[pos..] + e;
    }
    ReadLinesAppend(first, e);
    if first != [] {
      GrowthAfterNewLines(s, path, c, e, first);
    }
  }

  /** The case of `GrowthDeliversOnce` where the first read finds new lines. */
  lemma GrowthAfterNewLines(s: HandlerState, path: string, c: string, e: string, first: string)
    requires first != [] && Unread(s, path, c) == first && Unread(s, path, c + e) == first + e
    requires ReadLines(first + e) == ReadLines(first) + ReadLines(e)
    ensures Process(Process(s, path, map[path := c]), path, map[path := c + e]) == Process(s, path, map[path := c + e])
  {
    if e == [] {
      assert c + e == c;
      ProcessIdempotent(s, path, map[path := c]);
    } else {
      GrowthThenMore(s, path, c, e, first, map[path := c], map[path := c + e]);
    }
  }

  /** The case of `GrowthAfterNewLines` where text was appended. */
  lemma GrowthThenMore(s: HandlerState, path: string, c: string, e: string, first: string,
                       small: map<string, string>, grown: map<string, string>)
    requires first != [] && e != [] && Unread(s, path, c) == first && Unread(s, path, c + e) == first + e
    requires ReadLines(first + e) == ReadLines(first) + ReadLines(e)
    requires path in small && small[path] == c && path in grown && grown[path] == c + e
    ensures Process(Process(s, path, small), path, grown) == Process(s, path, grown)
  {
    var l1, l2 := ReadLines(first), ReadLines(e);
    var d1, d2 := Deliveries(path, l1), Deliveries(path, l2);
    var t := HandlerState(s.positions[path := |c|], s.delivered + d1);
    ProcessNew(s, path, small, first);
    assert Unread(t, path, c + e) == e by {
      assert (c + e)[|c|..] == e;
    }
    ProcessNew(t, path, grown, e);
    ProcessNew(s, path, grown, first + e);
    DeliveriesAppend(path, l1, l2);
    Assoc(s.delivered, d1, d2);
    UpdateTwice(s.positions, path, |c|, |c + e|);
  }

  /** `Process` on a file with new text `u` after the stored position. */
  lemma ProcessNew(s: HandlerState, path: string, fs: map<string, string>, u: string)
    requires path in fs && Unread(s, path, fs[path]) == u && u != []
    ensures Process(s, path, fs) == HandlerState(s.positions[path := |fs[path]|], s.delivered + Deliveries(path, ReadLines(u)))
  {
  }

  /** Every position the handler stores lies within its file, for a file
      system whose files only grow. */
  predicate WithinFiles(s: HandlerState, fs: map<string, string>) {
    forall p :: p in s.positions && p in fs ==> s.positions[p] <= |fs[p]|
  }

  /** Reading a file keeps every position within its file. */
  lemma ProcessWithinFiles(s: HandlerState, path: string, fs: map<string, string>)
    requires WithinFiles(s, fs)
    ensures WithinFiles(Process(s, path, fs), fs)
  {
  }

  /** `_initialize_existing_files`: every found file that can be opened gets
      its end as its position. */
  function InitPositions(s: HandlerState, found: seq<string>, fs: map<string, string>): (r: HandlerState)
    ensures r.delivered == s.delivered
    decreases |found|
  {
    if found == [] then s
    else
      var t := InitPositions(s, found[..|found| - 1], fs);
      var f := found[|found| - 1];
      if f in fs then HandlerState(t.positions[f := |fs[f]|], t.delivered) else t
  }

  /** After initialisation every found readable file is positioned at its end. */
  lemma {:induction false} InitPositionAtEnd(s: HandlerState, found: seq<string>, fs: map<string, string>, p: string)
    requires p in found && p in fs
    ensures Position(InitPositions(s, found, fs), p) == |fs[p]|
    decreases |found|
  {
    var f := found[|found| - 1];
    if f != p {
      assert p in found[..|found| - 1] by {
        var k :| 0 <= k < |found| && found[k] == p;
        assert found[..|found| - 1][k] == p;
      }
      InitPositionAtEnd(s, found[..|found| - 1], fs, p);
    }
  }

  /** Content present at start-up is never delivered: right after
      initialisation, an event on a found file that has not changed delivers
      nothing. */
  lemma InitThenQuiet(s: HandlerState, found: seq<string>, fs: map<string, string>, p: string)
    requires p in found && p in fs
    ensures Process(InitPositions(s, found, fs), p, fs) == InitPositions(s, found, fs)
  {
    InitPositionAtEnd(s, found, fs, p);
  }

  /** `force_scan`: every found file read in turn. */
  function ProcessAll(s: HandlerState, found: seq<string>, fs: map<string, string>): HandlerState
    decreases |found|
  {
    if found == [] then s else Process(ProcessAll(s, found[..|found| - 1], fs), found[|found| - 1], fs)
  }

  // ---------------------------------------------------------------- the handler object

  /** `LogFileHandler`: `file_positions` and, standing for the processor, the
      deliveries made to it. */
  class LogFileHandler {
    var positions: map<string, nat>
    var delivered: seq<Delivery>

    constructor()
      ensures positions == map[] && delivered == []
    {
      positions := map[];
      delivered := [];
    }

    function State(): HandlerState
      reads this
    {
      HandlerState(positions, delivered)
    }

    /** `_process_log_file`. */
    method ProcessLogFile(path: string, fs: map<string, string>)
      modifies this
      ensures State() == Process(old(State()), path, fs)
    {
      if path !in fs {
        return;
      }
      var content := fs[path];
      var newLines := ReadLines(Unread(State(), path, content));
      if newLines != [] {
        positions := positions[path := |content|];
        DeliverLines(path, newLines);
      }
    }

    /** The loop of `_process_log_file` over the new lines. */
    method DeliverLines(path: string, lines: seq<string>)
      modifies this
      ensures unchanged(this`positions)
      ensures delivered == old(delivered) + Deliveries(path, lines)
    {
      var i := 0;
      while i < |lines|
        invariant 0 <= i <= |lines|
        invariant unchanged(this`positions)
        invariant delivered == old(delivered) + Deliveries(path, lines[..i])
      {
        DeliverLine(path, lines[i]);
        DeliveriesNext(path, lines, i, old(delivered));
        i := i + 1;
      }
      assert lines[..i] == lines;
    }

    /** One pass of that loop: the line is stripped and, unless blank,
        handed to the processor. */
    method DeliverLine(path: string, raw: string)
      modifies this
      ensures unchanged(this`positions)
      ensures delivered == old(delivered) + Deliveries(path, [raw])
    {
      DeliveriesOne(path, raw);
      var line := Strip(raw);
      if line != "" {
        delivered := delivered + [Delivery(path, line)];
      }
    }

    /** `on_modified`. */
    method OnModified(e: Event, fs: map<string, string>)
      modifies this
      ensures State() == OnEvent(old(State()), e, fs)
    {
      if e.kind == Modified && !e.isDirectory && EndsWith(e.srcPath, ".log") {
        ProcessLogFile(e.srcPath, fs);
      }
    }
  }

  // ---------------------------------------------------------------- the monitor object

  /** The directory `start` watches. */
  const LogBaseDir: string := "/var/log/centralized"

  /** `LogFileMonitor`: the watched paths, the running flag and the handler.
      The observer thread is created once, with the monitor; of it the model
      keeps only whether it was ever started (a thread starts at most once).
      Whether it is alive is a parameter. */
  class LogFileMonitor {
    var monitoredPaths: set<string>
    var running: bool
    var observerStarted: bool
    const handler: LogFileHandler

    constructor()
      ensures monitoredPaths == {} && !running && !observerStarted
      ensures fresh(handler) && handler.State() == HandlerState(map[], [])
    {
      monitoredPaths := {};
      running := false;
      observerStarted := false;
      handler := new LogFileHandler();
    }

    /** `is_running`. */
    function IsRunning(observerAlive: bool): (r: bool)
      reads this
      ensures r ==> running
    {
      running && observerAlive
    }

    /** `start`: when already running nothing changes; otherwise the base
      directory is watched and the observer started. The first start sets
      the flag and positions the `.log` files `found` under the watched paths
      at their ends. A start after a stop starts the same observer thread a
      second time, which raises: the flag is cleared and no position moves. */
    method Start(found: seq<string>, fs: map<string, string>)
      modifies this, handler
      ensures old(running) ==> running && monitoredPaths == old(monitoredPaths) && handler.State() == old(handler.State())
      ensures !old(running) ==> monitoredPaths == old(monitoredPaths) + {LogBaseDir}
      ensures !old(running) && !old(observerStarted) ==>
        running && handler.State() == InitPositions(old(handler.State()), found, fs)
      ensures !old(running) && old(observerStarted) ==> !running && handler.State() == old(handler.State())
      ensures observerStarted == (old(observerStarted) || !old(running))
    {
      if running {
        return;
      }
      monitoredPaths := monitoredPaths + {LogBaseDir};
      if observerStarted {
        running := false;
        return;
      }
      observerStarted := true;
      running := true;
      InitializeExistingFiles(found, fs);
    }

    /** `_initialize_existing_files`, with the files the scan finds given. */
    method InitializeExistingFiles(found: seq<string>, fs: map<string, string>)
      modifies handler
      ensures handler.State() == InitPositions(old(handler.State()), found, fs)
    {
      var i := 0;
      while i < |found|
        invariant 0 <= i <= |found|
        invariant handler.State() == InitPositions(old(handler.State()), found[..i], fs)
      {
        assert found[..i + 1][..i] == found[..i];
        var f := found[i];
        if f in fs {
          handler.positions := handler.positions[f := |fs[f]|];
        }
        i := i + 1;
      }
      assert found[..i] == found;
    }

    /** `stop`: when not running nothing changes; otherwise the flag is cleared. */
    method Stop()
      modifies this
      ensures !running && monitoredPaths == old(monitoredPaths) && observerStarted == old(observerStarted)
    {
      if !running {
        return;
      }
      running := false;
    }

    /** `add_path`: the path is normalised as `str(Path(path))`, and it is
      watched only when it exists; `existing` holds the normalised paths that
      exist. */
    method AddPath(path: string, existing: set<string>)
      modifies this
      ensures var norm := Paths.Str(Paths.ParsePath(path));
        monitoredPaths == if norm in existing then old(monitoredPaths) + {norm} else old(monitoredPaths)
      ensures running == old(running) && observerStarted == old(observerStarted)
    {
      var norm := Paths.Str(Paths.ParsePath(path));
      if norm in existing {
        monitoredPaths := monitoredPaths + {norm};
      }
    }

    /** `remove_path`: the path is no longer watched, whether it was or not. */
    method RemovePath(path: string)
      modifies this
      ensures monitoredPaths == old(monitoredPaths) - {path}
      ensures running == old(running) && observerStarted == old(observerStarted)
    {
      if path in monitoredPaths {
        monitoredPaths := monitoredPaths - {path};
      }
    }

    /** `get_monitored_paths`: a copy, which later changes to the monitor leave as it is. */
    method GetMonitoredPaths() returns (paths: set<string>)
      ensures paths == monitoredPaths
    {
      paths := monitoredPaths;
    }

    /** `force_scan`: every found `.log` file read in turn. */
    method ForceScan(found: seq<string>, fs: map<string, string>)
      modifies handler
      ensures handler.State() == ProcessAll(old(handler.State()), found, fs)
    {
      var i := 0;
      while i < |found|
        invariant 0 <= i <= |found|
        invariant handler.State() == ProcessAll(old(handler.State()), found[..i], fs)
      {
        assert found[..i + 1][..i] == found[..i];
        handler.ProcessLogFile(found[i], fs);
        i := i + 1;
      }
      assert found[..i] == found;
    }
  }
}
