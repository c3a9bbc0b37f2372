/** Finding a timestamp inside a log line. Each timestamp regex of the core is a
    fixed-width shape with at most one variable-length part, so each is written
    as a matcher that says what the regex matches at a given position; the
    date parsers themselves (`fromisoformat`, `strptime`, time zones) are the
    clock's business. */
module Timestamps {
  import opened Wrappers
  import opened Text
  import opened PySeq
  import opened Time

  /** The standard-library parser a matched timestamp is handed to. */
  datatype Parser =
    | FromIso            // `datetime.fromisoformat`
    | StrptimeStandard   // `strptime(s, '%Y-%m-%d %H:%M:%S')`
    | StrptimeSyslog     // `strptime(f"{year} {s}", '%Y %b %d %H:%M:%S')` with the current year

  /** The clock and the date parsers; a parser gives `None` where Python raises. */
  datatype Clock = Clock(now: Instant, parse: (Parser, string) -> Option<Instant>)

  /** One character against a shape character: `D` is `\d`, `W` is `\w`, anything
      else stands for itself. */
  predicate CharFits(c: char, sc: char) {
    if sc == 'D' then IsDigit(c) else if sc == 'W' then IsWordChar(c) else c == sc
  }

  predicate FitsShape(s: string, i: nat, shape: string) {
    i + |shape| <= |s| && forall k :: 0 <= k < |shape| ==> CharFits(s[i + k], shape[k])
  }

  /** `\d{4}-\d{2}-\d{2}T\d{2}:\d{2}:\d{2}` */
  const IsoShape: string := "DDDD-DD-DDTDD:DD:DD"
  /** `\d{4}-\d{2}-\d{2} \d{2}:\d{2}:\d{2}` */
  const StandardShape: string := "DDDD-DD-DD DD:DD:DD"
  /** `\w{3} \d{2} \d{2}:\d{2}:\d{2}` */
  const SyslogShape: string := "WWW DD DD:DD:DD"
  /** `\d{2}:\d{2}`, the part of a numeric offset after its sign. */
  const OffsetShape: string := "DD:DD"

  /** `(?:\.\d+)?` as written: empty, or a dot and at least one digit. */
  predicate Fraction(x: string) {
    x == [] || (|x| >= 2 && x[0] == '.' && AllDigits(x[1..]))
  }

  /** The length the greedy `(?:\.\d+)?` takes at position `j`. */
  function FractionLen(s: string, j: nat): (n: nat)
    ensures j + n <= |s| || n == 0
    ensures n > 0 ==> Fraction(s[j..j + n]) && (j + n == |s| || !IsDigit(s[j + n]))
  {
    if j + 1 < |s| && s[j] == '.' && IsDigit(s[j + 1]) then
      var d := RunLength(s[j + 1..], IsDigit);
      assert s[j..j + 1 + d][1..] == s[j + 1..][..d];
      1 + d
    else 0
  }

  /** `[+-]\d{2}:\d{2}` at position `j`. */
  predicate OffsetAt(s: string, j: nat) {
    j < |s| && (s[j] == '+' || s[j] == '-') && FitsShape(s, j + 1, OffsetShape)
  }

  /** The core's timestamp regexes. */
  datatype Shape =
    | IsoWithOffset   // `\d{4}-\d{2}-\d{2}T\d{2}:\d{2}:\d{2}(?:\.\d+)?[+-]\d{2}:\d{2}`
    | IsoLocal        // `\d{4}-\d{2}-\d{2}T\d{2}:\d{2}:\d{2}(?:\.\d+)?`
    | Standard        // `\d{4}-\d{2}-\d{2} \d{2}:\d{2}:\d{2}`
    | Syslog          // `\w{3} \d{2} \d{2}:\d{2}:\d{2}`

  /** What the shape's regex matches starting exactly at position `i`. Greedy
      backtracking cannot change the answer: fewer fraction digits would leave
      a digit where the offset sign must stand. */
  function MatchAt(shape: Shape, s: string, i: nat): (r: Option<string>)
    ensures r.Some? ==> OccursAt(s, r.value, i)
    ensures r.Some? && shape == IsoWithOffset ==>
      |r.value| >= 25 && FitsShape(r.value, 0, IsoShape) && Fraction(r.value[19..|r.value| - 6])
      && OffsetAt(r.value, |r.value| - 6)
    ensures r.Some? && shape == IsoLocal ==>
      |r.value| >= 19 && FitsShape(r.value, 0, IsoShape) && Fraction(r.value[19..])
    ensures r.Some? && shape == Standard ==> |r.value| == 19 && FitsShape(r.value, 0, StandardShape)
    ensures r.Some? && shape == Syslog ==> |r.value| == 15 && FitsShape(r.value, 0, SyslogShape)
  {
    match shape
    case IsoWithOffset => IsoOffsetMatchAt(s, i)
    case IsoLocal => IsoLocalMatchAt(s, i)
    case Standard => FixedMatchAt(s, i, StandardShape)
    case Syslog => FixedMatchAt(s, i, SyslogShape)
  }

  /** The ISO shape, the greedy fraction, then an offset that must follow it. */
  function IsoOffsetMatchAt(s: string, i: nat): (r: Option<string>)
    ensures r.Some? ==> OccursAt(s, r.value, i)
    ensures r.Some? ==>
      |r.value| >= 25 && FitsShape(r.value, 0, IsoShape) && Fraction(r.value[19..|r.value| - 6])
      && OffsetAt(r.value, |r.value| - 6)
  {
    if FitsShape(s, i, IsoShape) then
      var f := FractionLen(s, i + 19);
      if OffsetAt(s, i + 19 + f) then
        var t := s[i..i + 25 + f];
        assert t[19..|t| - 6] == s[i + 19..i + 19 + f];
        FitsSlice(s, i, 25 + f, IsoShape, 0);
        OffsetSlice(s, i, 25 + f, 19 + f);
        Some(t)
      else None
    else None
  }

  /** The ISO shape and the greedy fraction. */
  function IsoLocalMatchAt(s: string, i: nat): (r: Option<string>)
    ensures r.Some? ==> OccursAt(s, r.value, i)
    ensures r.Some? ==> |r.value| >= 19 && FitsShape(r.value, 0, IsoShape) && Fraction(r.value[19..])
  {
    if FitsShape(s, i, IsoShape) then
      var f := FractionLen(s, i + 19);
      var t := s[i..i + 19 + f];
      assert t[19..] == s[i + 19..i + 19 + f];
      FitsSlice(s, i, 19 + f, IsoShape, 0);
      Some(t)
    else None
  }

  /** A fixed-width shape. */
  function FixedMatchAt(s: string, i: nat, shape: string): (r: Option<string>)
    ensures r.Some? ==> OccursAt(s, r.value, i)
    ensures r.Some? ==> |r.value| == |shape| && FitsShape(r.value, 0, shape)
  {
    if FitsShape(s, i, shape) then FitsSlice(s, i, |shape|, shape, 0); Some(s[i..i + |shape|]) else None
  }

  /** An offset inside a slice is an offset of the slice at the shifted position. */
  lemma OffsetSlice(s: string, i: nat, n: nat, j: nat)
    requires i + n <= |s| && j + 6 <= n && OffsetAt(s, i + j)
    ensures OffsetAt(s[i..i + n], j)
  {
    assert s[i..i + n][j] == s[i + j];
    FitsSlice(s, i, n, OffsetShape, j + 1);
  }

  /** A shape that fits inside a slice fits the slice at the shifted position. */
  lemma FitsSlice(s: string, i: nat, n: nat, shape: string, j: nat)
    requires i + n <= |s| && j + |shape| <= n && FitsShape(s, i + j, shape)
    ensures FitsShape(s[i..i + n], j, shape)
  {
    forall k | 0 <= k < |shape| ensures CharFits(s[i..i + n][j + k], shape[k]) {
      assert s[i..i + n][j + k] == s[i + j + k];
    }
  }

  /** `re.search(shape, line).group(1)`: the leftmost match, if any. */
  function Find(shape: Shape, line: string): Option<string> {
    Search(line, (s: string, i: nat) => MatchAt(shape, s, i), 0)
  }

  /** One pattern's turn: its leftmost match handed to the interpreter, whose
      `None` is the exception that sends the loop on to the next pattern. */
  function Attempt(line: string, shape: Shape, interp: string -> Option<Instant>): Option<Instant> {
    match Find(shape, line)
    case None => None
    case Some(t) => interp(t)
  }

  /** The `for pattern in timestamp_patterns` loop: patterns are tried in their
      listed order, and the first one whose match also parses wins. */
  function FirstParsed(line: string, shapes: seq<Shape>, interp: string -> Option<Instant>): (r: Option<Instant>)
    ensures r.Some? ==> exists k :: (0 <= k < |shapes| && Attempt(line, shapes[k], interp) == r
      && forall j :: 0 <= j < k ==> Attempt(line, shapes[j], interp).None?)
    ensures r.None? ==> forall k :: 0 <= k < |shapes| ==> Attempt(line, shapes[k], interp).None?
  {
    if shapes == [] then None
    else
      var a := Attempt(line, shapes[0], interp);
      if a.Some? then
        assert Attempt(line, shapes[0], interp) == a;
        a
      else
        var r := FirstParsed(line, shapes[1..], interp);
        assert forall k :: 0 < k < |shapes| ==> shapes[k] == shapes[1..][k - 1];
        r
  }

  /** The text-to-datetime step of `RedisLogProcessor._parse_log_line`: an ISO
      text with an offset goes to `fromisoformat` as is, any other with `T`
      replaced by a space. */
  function RedisInterpret(clock: Clock, t: string): Option<Instant> {
    if 'T' in t && ('+' in t || '-' in PyDrop(t, -6)) then clock.parse(FromIso, t)
    else clock.parse(FromIso, ReplaceChar(t, 'T', ' '))
  }

  /** The timestamp `RedisLogProcessor._parse_log_line` gives a line: the first of
      three patterns that matches and parses, else the current time. */
  function RedisLineTimestamp(clock: Clock, line: string): Instant {
    FirstParsed(line, [IsoWithOffset, IsoLocal, Standard], t => RedisInterpret(clock, t)).GetOr(clock.now)
  }

  /** The text-to-datetime step of `extract_timestamp_from_log_line`. */
  function ApiInterpret(clock: Clock, t: string): Option<Instant> {
    if 'T' in t && ('+' in t || '-' in PyDrop(t, -6)) then clock.parse(FromIso, t)
    else if 'T' in t then clock.parse(FromIso, ReplaceAll(t, "Z", ""))
    else if '-' in t then clock.parse(StrptimeStandard, t)
    else clock.parse(StrptimeSyslog, t)
  }

  /** `extract_timestamp_from_log_line`: four patterns in priority order, else now. */
  function ApiLineTimestamp(clock: Clock, line: string): Instant {
    FirstParsed(line, [IsoWithOffset, IsoLocal, Standard, Syslog], t => ApiInterpret(clock, t)).GetOr(clock.now)
  }

  /** The character tests in the interpreters send each shape to the parser meant
      for it. A text of the offset shape goes to `fromisoformat` unchanged. */
  lemma OffsetFormInterpretation(clock: Clock, t: string)
    requires |t| >= 25 && FitsShape(t, 0, IsoShape) && OffsetAt(t, |t| - 6)
    ensures RedisInterpret(clock, t) == clock.parse(FromIso, t)
    ensures ApiInterpret(clock, t) == clock.parse(FromIso, t)
  {
    assert CharFits(t[10], IsoShape[10]);
    var j := |t| - 6;
    assert PyDrop(t, -6) == t[j..];
    assert t[j..][0] == t[j];
  }

  /** A text of the local ISO shape goes to `fromisoformat`, with `T` made a space
      by the Redis processor and unchanged by the query API. */
  lemma LocalFormInterpretation(clock: Clock, t: string)
    requires |t| >= 19 && FitsShape(t, 0, IsoShape) && Fraction(t[19..])
    ensures RedisInterpret(clock, t) == clock.parse(FromIso, ReplaceChar(t, 'T', ' '))
    ensures ApiInterpret(clock, t) == clock.parse(FromIso, t)
  {
    LocalFormChars(t);
    NoSignAfterDate(t);
    assert !Contains(t, "Z") by {
      CharAbsent(t, 'Z');
    }
    ReplaceAllAbsent(t, "Z", "");
  }

  /** A text of the local ISO shape holds its `T`, and no `+`, no `Z`, and no
      `-` after the date. */
  lemma LocalFormChars(t: string)
    requires |t| >= 19 && FitsShape(t, 0, IsoShape) && Fraction(t[19..])
    ensures 'T' in t
    ensures forall k :: 0 <= k < |t| ==> t[k] != '+' && t[k] != 'Z' && (k >= 13 ==> t[k] != '-')
  {
    assert CharFits(t[10], IsoShape[10]);
    var x := t[19..];
    assert forall k :: 19 <= k < |t| ==> t[k] == x[k - 19];
    assert forall k :: 0 < k < |x| ==> x[k] == x[1..][k - 1];
    forall k | 0 <= k < 19 ensures CharFits(t[k], IsoShape[k]) {
    }
  }

  /** Without `+`, and without `-` after the date, neither interpreter sees an offset. */
  lemma NoSignAfterDate(t: string)
    requires |t| >= 19
    requires forall k :: 0 <= k < |t| ==> t[k] != '+' && (k >= 13 ==> t[k] != '-')
    ensures '+' !in t && '-' !in PyDrop(t, -6)
  {
    var tail := t[|t| - 6..];
    assert PyDrop(t, -6) == tail;
    assert forall k :: 0 <= k < 6 ==> tail[k] == t[|t| - 6 + k];
  }

  /** A text of the standard shape goes to its `strptime`. */
  lemma StandardFormInterpretation(clock: Clock, t: string)
    requires |t| == 19 && FitsShape(t, 0, StandardShape)
    ensures ApiInterpret(clock, t) == clock.parse(StrptimeStandard, t)
  {
    assert CharFits(t[4], StandardShape[4]);
    forall k | 0 <= k < |t| ensures t[k] != 'T' {
      assert CharFits(t[k], StandardShape[k]);
    }
  }

  /** A text of the syslog shape goes to the syslog `strptime`, unless one of its
      three leading word characters is a `T`. */
  lemma SyslogFormInterpretation(clock: Clock, t: string)
    requires |t| == 15 && FitsShape(t, 0, SyslogShape) && 'T' !in t
    ensures ApiInterpret(clock, t) == clock.parse(StrptimeSyslog, t)
  {
    forall k | 0 <= k < |t| ensures t[k] != '-' {
      assert CharFits(t[k], SyslogShape[k]);
    }
  }

  /** An RFC 3339 date-time with a numeric offset (section 5.6 of RFC 3339, with
      the upper-case `T`): full-date, `T`, partial-time with an optional
      fraction, and `+hh:mm` or `-hh:mm`. */
  predicate NumOffsetDateTime(t: string) {
    |t| >= 25 && FitsShape(t, 0, IsoShape) && Fraction(t[19..|t| - 6]) && OffsetAt(t, |t| - 6)
  }

  /** The offset pattern recognises such a date-time at the front of a line in
      full, whatever follows it. */
  lemma RecognisesNumOffset(t: string, rest: string)
    requires NumOffsetDateTime(t)
    ensures MatchAt(IsoWithOffset, t + rest, 0) == Some(t)
  {
    var s := t + rest;
    assert s[..|t|] == t;
    assert FitsShape(s, 0, IsoShape) by {
      forall k | 0 <= k < 19 ensures CharFits(s[k], IsoShape[k]) {
        assert CharFits(t[k], IsoShape[k]);
      }
    }
    var x := t[19..|t| - 6];
    FractionLenOf(s, 19, x);
    assert s[19 + |x|..] == t[|t| - 6..] + rest;
    assert OffsetAt(s, 19 + |x|) by {
      forall k | 0 <= k < 5 ensures CharFits(s[20 + |x| + k], OffsetShape[k]) {
        assert s[20 + |x| + k] == t[|t| - 5 + k];
      }
    }
  }

  lemma FractionLenOf(s: string, j: nat, x: string)
    requires Fraction(x) && j + |x| <= |s| && s[j..j + |x|] == x
    requires j + |x| == |s| || !IsDigit(s[j + |x|])
    requires x == [] ==> j == |s| || s[j] != '.'
    ensures FractionLen(s, j) == |x|
  {
    if x != [] {
      assert s[j] == x[0] && s[j + 1] == x[1];
      assert IsDigit(x[1..][0]);
      var u := s[j + 1..];
      forall k | 0 <= k < |x| - 1 ensures IsDigit(u[k]) {
        assert u[k] == x[1..][k];
      }
      RunLengthExact(u, IsDigit, |x| - 1);
    }
  }

  /** A `Z` (UTC) suffix is not an offset to these patterns: the offset pattern
      fails on it and the local pattern stops before it, so the time is read as
      local time. */
  lemma ZuluReadAsLocal(t: string, rest: string)
    requires |t| == 19 && FitsShape(t, 0, IsoShape)
    ensures MatchAt(IsoWithOffset, t + "Z" + rest, 0) == None
    ensures MatchAt(IsoLocal, t + "Z" + rest, 0) == Some(t)
  {
    var s := t + "Z" + rest;
    assert s[19] == 'Z';
    assert FitsShape(s, 0, IsoShape) by {
      forall k | 0 <= k < 19 ensures CharFits(s[k], IsoShape[k]) {
        assert s[k] == t[k];
      }
    }
    assert FractionLen(s, 19) == 0;
    assert s[..19] == t;
  }
}
