/** The two tags a log line may carry, as the core's regexes capture them:
    `[Refresh-<digits>]` and a `step <digits>` number. */
module LineTags {
  import opened Wrappers
  import opened Text

  /** What `\[Refresh-(\d+)\]` captures at position `i`. */
  function RefreshTagAt(s: string, i: nat): (r: Option<string>)
    ensures r.Some? ==> |r.value| >= 1 && AllDigits(r.value) && OccursAt(s, "[Refresh-" + r.value + "]", i)
  {
    if OccursAt(s, "[Refresh-", i) then
      var d := DigitRun(s[i + 9..]);
      if |d| >= 1 && i + 9 + |d| < |s| && s[i + 9 + |d|] == ']' then
        assert s[i..i + 10 + |d|] == s[i..i + 9] + s[i + 9..][..|d|] + [']'];
        Some(d)
      else None
    else None
  }

  /** The digits of the leftmost `[Refresh-<digits>]` tag in a line. */
  function RefreshTag(line: string): (r: Option<string>)
    ensures r.Some? ==> |r.value| >= 1 && AllDigits(r.value) && Contains(line, "[Refresh-" + r.value + "]")
  {
    var r := Search(line, RefreshTagAt, 0);
    assert r.Some? ==> Contains(line, "[Refresh-" + r.value + "]") by {
      if r.Some? {
        var i :| 0 <= i <= |line| && RefreshTagAt(line, i) == r;
        ContainsAt(line, "[Refresh-" + r.value + "]", i);
      }
    }
    r
  }

  /** Every `[Refresh-<digits>]` tag is read back with exactly its digits. */
  lemma RefreshTagExact(s: string, d: string, i: nat)
    requires |d| >= 1 && AllDigits(d) && OccursAt(s, "[Refresh-" + d + "]", i)
    ensures RefreshTagAt(s, i) == Some(d)
  {
    var tag := "[Refresh-" + d + "]";
    assert s[i..i + 9] == tag[..9];
    var u := s[i + 9..];
    assert forall k :: 0 <= k < |d| ==> u[k] == tag[9 + k] == d[k];
    assert u[|d|] == tag[9 + |d|] == ']';
    RunLengthExact(u, IsDigit, |d|);
    assert DigitRun(u) == u[..|d|] == d;
  }

  /** A line holds no `[Refresh-<digits>]` tag exactly when none is found. */
  lemma RefreshTagAbsent(line: string)
    ensures RefreshTag(line).None? <==>
      forall d: string, i: nat :: |d| >= 1 && AllDigits(d) ==> !OccursAt(line, "[Refresh-" + d + "]", i)
  {
    if RefreshTag(line).None? {
      forall d: string, i: nat | |d| >= 1 && AllDigits(d)
        ensures !OccursAt(line, "[Refresh-" + d + "]", i)
      {
        if OccursAt(line, "[Refresh-" + d + "]", i) {
          RefreshTagExact(line, d, i);
        }
      }
    }
  }

  /** What `step\s*(\d+)` (case ignored) captures at position `i`; the optional
      `/8` or `/9` after it never changes the capture. */
  function StepAt(s: string, i: nat): (r: Option<string>)
    ensures r.Some? ==> |r.value| >= 1 && AllDigits(r.value)
    ensures r.Some? ==> i + 4 <= |s| && r.value == DigitRun(s[i + 4 + SpaceRun(s[i + 4..])..])
  {
    if i + 4 <= |s| && Lower(s[i..i + 4]) == "step" then
      var n := SpaceRun(s[i + 4..]);
      var d := DigitRun(s[i + 4 + n..]);
      if |d| >= 1 then Some(d) else None
    else None
  }

  /** The digits of the leftmost step number in a line. */
  function StepNumber(line: string): (r: Option<string>)
    ensures r.Some? ==> |r.value| >= 1 && AllDigits(r.value)
  {
    var r := Search(line, StepAt, 0);
    assert r.Some? ==> |r.value| >= 1 && AllDigits(r.value) by {
      if r.Some? {
        var i :| 0 <= i <= |line| && StepAt(line, i) == r;
      }
    }
    r
  }
}
