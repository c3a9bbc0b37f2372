/** Strings as Python's `str` methods see them, restricted to ASCII:
    character classes, case mapping, substring search, strip, split/join,
    replace and decimal numerals. */
module Text {
  import opened Wrappers

  /** Python's `str.isspace` / regex `\s` on ASCII characters. */
  predicate IsSpace(c: char) {
    c == ' ' || c == '\t' || c == '\n' || c == '\r' || c == '\U{000B}' || c == '\U{000C}'
    || ('\U{001C}' <= c <= '\U{001F}')
  }

  predicate IsDigit(c: char) { '0' <= c <= '9' }

  /** Regex `\w` on ASCII: letters, digits and the underscore. */
  predicate IsWordChar(c: char) {
    ('a' <= c <= 'z') || ('A' <= c <= 'Z') || IsDigit(c) || c == '_'
  }

  predicate AllDigits(s: string) { forall i :: 0 <= i < |s| ==> IsDigit(s[i]) }

  predicate AllSpace(s: string) { forall i :: 0 <= i < |s| ==> IsSpace(s[i]) }

  function LowerChar(c: char): char {
    if 'A' <= c <= 'Z' then (c as int + 32) as char else c
  }

  function UpperChar(c: char): char {
    if 'a' <= c <= 'z' then (c as int - 32) as char else c
  }

  /** `str.lower()` on ASCII letters; every other character is kept. */
  function Lower(s: string): (r: string)
    ensures |r| == |s| && forall i :: 0 <= i < |s| ==> r[i] == LowerChar(s[i])
  {
    seq(|s|, i requires 0 <= i < |s| => LowerChar(s[i]))
  }

  /** `str.upper()` on ASCII letters; every other character is kept. */
  function Upper(s: string): (r: string)
    ensures |r| == |s| && forall i :: 0 <= i < |s| ==> r[i] == UpperChar(s[i])
  {
    seq(|s|, i requires 0 <= i < |s| => UpperChar(s[i]))
  }

  predicate StartsWith(s: string, p: string) { |p| <= |s| && s[..|p|] == p }

  predicate EndsWith(s: string, p: string) { |p| <= |s| && s[|s| - |p|..] == p }

  /** A text starting with `p + q` starts with `p`. */
  lemma StartsWithShorter(s: string, p: string, q: string)
    ensures StartsWith(s, p + q) ==> StartsWith(s, p)
  {
    if StartsWith(s, p + q) {
      assert s[..|p|] == s[..|p + q|][..|p|];
    }
  }

  predicate OccursAt(s: string, sub: string, i: int) {
    0 <= i && i + |sub| <= |s| && s[i..i + |sub|] == sub
  }

  /** Python's `sub in s`. */
  predicate Contains(s: string, sub: string) {
    exists i | 0 <= i <= |s| - |sub| :: OccursAt(s, sub, i)
  }

  /** `any(w in s for w in words)`. */
  predicate ContainsAny(s: string, words: seq<string>) {
    exists j | 0 <= j < |words| :: Contains(s, words[j])
  }

  lemma ContainsAt(s: string, sub: string, i: int)
    requires OccursAt(s, sub, i)
    ensures Contains(s, sub)
  {
  }

  /** An occurrence in a part is an occurrence in the whole. */
  lemma ContainsInConcat(a: string, b: string, sub: string)
    ensures Contains(a, sub) ==> Contains(a + b, sub)
    ensures Contains(b, sub) ==> Contains(a + b, sub)
  {
    if Contains(a, sub) {
      var i :| 0 <= i <= |a| - |sub| && OccursAt(a, sub, i);
      assert (a + b)[i..i + |sub|] == a[i..i + |sub|];
      ContainsAt(a + b, sub, i);
    }
    if Contains(b, sub) {
      var i :| 0 <= i <= |b| - |sub| && OccursAt(b, sub, i);
      assert (a + b)[|a| + i..|a| + i + |sub|] == b[i..i + |sub|];
      ContainsAt(a + b, sub, |a| + i);
    }
  }

  /** A word none of whose characters is a separator character cannot straddle
      the separator: it occurs in `a + sep + b` only if it occurs in `a` or in `b`. */
  lemma NotContainsAcrossSeparator(a: string, sep: string, b: string, w: string)
    requires |w| > 0 && |sep| > 0 && forall k :: 0 <= k < |w| ==> w[k] !in sep
    requires !Contains(a, w) && !Contains(b, w)
    ensures !Contains(a + sep + b, w)
  {
    var s := a + sep + b;
    forall i | 0 <= i <= |s| - |w| ensures !OccursAt(s, w, i) {
      if i + |w| <= |a| {
        assert s[i..i + |w|] == a[i..i + |w|];
        assert !OccursAt(a, w, i);
      } else if i >= |a| + |sep| {
        var j := i - |a| - |sep|;
        assert s[|a| + |sep|..] == b;
        assert s[i..i + |w|] == s[|a| + |sep|..][j..j + |w|] == b[j..j + |w|];
        assert !OccursAt(b, w, j);
      } else {
        // some character of the occurrence lies inside the separator
        var p := if i >= |a| then i else |a|;
        assert s[p] == sep[p - |a|];
        assert s[i..i + |w|][p - i] == s[p];
        assert w[p - i] !in sep;
      }
    }
  }

  /** Python's `str.lstrip()`: drops leading whitespace only. */
  function TrimStart(s: string): (r: string)
    ensures |r| <= |s| && r == s[|s| - |r|..]
    ensures r == [] || !IsSpace(r[0])
    ensures AllSpace(s[..|s| - |r|])
    ensures r == [] <==> AllSpace(s)
  {
    if |s| > 0 && IsSpace(s[0]) then
      var r := TrimStart(s[1..]);
      TrimStartStep(s, r);
      r
    else s
  }

  /** Dropping one leading space keeps `TrimStart`'s contract. */
  lemma TrimStartStep(s: string, r: string)
    requires |s| > 0 && IsSpace(s[0])
    requires |r| <= |s| - 1 && r == s[1..][|s| - 1 - |r|..]
    requires AllSpace(s[1..][..|s| - 1 - |r|])
    requires r == [] <==> AllSpace(s[1..])
    ensures r == s[|s| - |r|..]
    ensures AllSpace(s[..|s| - |r|])
    ensures r == [] <==> AllSpace(s)
  {
    assert s[1..][|s| - 1 - |r|..] == s[|s| - |r|..];
    forall i | 0 <= i < |s| - |r| ensures IsSpace(s[i]) {
      if i > 0 {
        assert s[i] == s[1..][..|s| - 1 - |r|][i - 1];
      }
    }
    if AllSpace(s) {
      forall i | 0 <= i < |s| - 1 ensures IsSpace(s[1..][i]) {
        assert s[1..][i] == s[i + 1];
      }
    }
    if AllSpace(s[1..]) {
      forall i | 0 <= i < |s| ensures IsSpace(s[i]) {
        if i > 0 {
          assert s[i] == s[1..][i - 1];
        }
      }
    }
  }

  /** Python's `str.rstrip()`: drops trailing whitespace only. */
  function TrimEnd(s: string): (r: string)
    ensures |r| <= |s| && r == s[..|r|]
    ensures r == [] || !IsSpace(r[|r| - 1])
    ensures AllSpace(s[|r|..])
    ensures r == [] <==> AllSpace(s)
  {
    if |s| > 0 && IsSpace(s[|s| - 1]) then
      var r := TrimEnd(s[..|s| - 1]);
      TrimEndStep(s, r);
      r
    else s
  }

  /** Dropping one trailing space keeps `TrimEnd`'s contract. */
  lemma TrimEndStep(s: string, r: string)
    requires |s| > 0 && IsSpace(s[|s| - 1])
    requires |r| <= |s| - 1 && r == s[..|s| - 1][..|r|]
    requires AllSpace(s[..|s| - 1][|r|..])
    requires r == [] <==> AllSpace(s[..|s| - 1])
    ensures r == s[..|r|]
    ensures AllSpace(s[|r|..])
    ensures r == [] <==> AllSpace(s)
  {
    assert s[..|s| - 1][..|r|] == s[..|r|];
    forall i | |r| <= i < |s| ensures IsSpace(s[i]) {
      if i < |s| - 1 {
        assert s[i] == s[..|s| - 1][|r|..][i - |r|];
      }
    }
    assert AllSpace(s[|r|..]) by {
      forall i | 0 <= i < |s| - |r| ensures IsSpace(s[|r|..][i]) {
        assert s[|r|..][i] == s[|r| + i];
      }
    }
    var u := s[..|s| - 1];
    if AllSpace(s) {
      forall i | 0 <= i < |u| ensures IsSpace(u[i]) {
        assert u[i] == s[i];
      }
    }
    if AllSpace(s[..|s| - 1]) {
      forall i | 0 <= i < |s| ensures IsSpace(s[i]) {
        if i < |s| - 1 {
          assert s[i] == s[..|s| - 1][i];
        }
      }
    }
  }

  /** Python's `str.strip()`. */
  function Strip(s: string): string {
    TrimEnd(TrimStart(s))
  }

  /** Some word occurs exactly when the first contained index is a word's. */
  lemma FirstContainedAny(s: string, words: seq<string>)
    ensures ContainsAny(s, words) <==> FirstContainedIndex(s, words) < |words|
  {
    if ContainsAny(s, words) {
      var j :| 0 <= j < |words| && Contains(s, words[j]);
      assert FirstContainedIndex(s, words) <= j;
    }
  }

  /** The position of the first of `words` that occurs in `s` (`|words|` if none
      does): the shape of every `if w1 in s ... elif w2 in s ...` chain. */
  function FirstContainedIndex(s: string, words: seq<string>): (k: nat)
    ensures k <= |words|
    ensures forall j :: 0 <= j < k ==> !Contains(s, words[j])
    ensures k < |words| ==> Contains(s, words[k])
  {
    if words == [] then 0
    else if Contains(s, words[0]) then 0
    else
      var k := FirstContainedIndex(s, words[1..]);
      assert forall j :: 1 <= j < 1 + k ==> words[j] == words[1..][j - 1];
      1 + k
  }

  /** The first of `words` that occurs in `s`, or `default` when none does. */
  function FirstContained(s: string, words: seq<string>, default: string): string {
    var k := FirstContainedIndex(s, words);
    if k < |words| then words[k] else default
  }

  /** A line is blank after `strip()` exactly when it is all whitespace, and a
      non-blank result is a slice of the input that starts and ends with a
      non-space character. */
  lemma StripSpec(s: string)
    ensures Strip(s) == [] <==> AllSpace(s)
    ensures Strip(s) != [] ==> !IsSpace(Strip(s)[0]) && !IsSpace(Strip(s)[|Strip(s)| - 1])
    ensures exists i, j :: 0 <= i <= j <= |s| && Strip(s) == s[i..j]
  {
    var t := TrimStart(s);
    assert t != [] ==> !AllSpace(t);
    var i, j := StripSlice(s);
  }

  /** Where the stripped line lies in the input. */
  lemma StripSlice(s: string) returns (i: nat, j: nat)
    ensures i <= j <= |s| && Strip(s) == s[i..j]
  {
    var t := TrimStart(s);
    var r := TrimEnd(t);
    i := |s| - |t|;
    j := i + |r|;
    assert t == s[i..];
    assert r == t[..|r|];
    assert s[i..j] == s[i..][..|r|];
  }

  /** Python's `''.join`-style concatenation with a separator. */
  function Join(parts: seq<string>, sep: string): string {
    if |parts| == 0 then ""
    else if |parts| == 1 then parts[0]
    else parts[0] + sep + Join(parts[1..], sep)
  }

  /** The first index of character `c` in `s`. */
  function IndexOf(s: string, c: char): (i: nat)
    requires c in s
    ensures i < |s| && s[i] == c && c !in s[..i]
  {
    if s[0] == c then 0 else 1 + IndexOf(s[1..], c)
  }

  /** Python's `s.split(sep)` for a one-character separator. */
  function Split(s: string, sep: char): (parts: seq<string>)
    ensures |parts| >= 1
    ensures forall k :: 0 <= k < |parts| ==> sep !in parts[k]
    ensures Join(parts, [sep]) == s
    decreases |s|
  {
    if sep !in s then [s]
    else
      var i := IndexOf(s, sep);
      var rest := Split(s[i + 1..], sep);
      assert s == s[..i] + [sep] + s[i + 1..];
      [s[..i]] + rest
  }

  /** The first occurrence is the only one with no earlier occurrence. */
  lemma IndexOfUnique(s: string, c: char, k: nat)
    requires k < |s| && s[k] == c && c !in s[..k]
    ensures IndexOf(s, c) == k
  {
    var i := IndexOf(s, c);
    assert forall j :: 0 <= j < k ==> s[..k][j] == s[j];
    assert forall j :: 0 <= j < i ==> s[..i][j] == s[j];
  }

  /** Splitting undoes joining, as long as no part holds the separator. */
  lemma {:induction false} SplitJoin(parts: seq<string>, sep: char)
    requires |parts| >= 1
    requires forall k :: 0 <= k < |parts| ==> sep !in parts[k]
    ensures Split(Join(parts, [sep]), sep) == parts
  {
    if |parts| > 1 {
      var s := Join(parts, [sep]);
      var tail := Join(parts[1..], [sep]);
      var n := |parts[0]|;
      assert s == parts[0] + [sep] + tail;
      assert s[..n] == parts[0];
      IndexOfUnique(s, sep, n);
      assert s[n + 1..] == tail;
      SplitJoin(parts[1..], sep);
    }
  }

  /** Python's `s.replace(pat, rep)`: every non-overlapping occurrence,
      scanning from the left. */
  function ReplaceAll(s: string, pat: string, rep: string): string
    requires |pat| > 0
    decreases |s|
  {
    if |s| < |pat| then s
    else if s[..|pat|] == pat then rep + ReplaceAll(s[|pat|..], pat, rep)
    else [s[0]] + ReplaceAll(s[1..], pat, rep)
  }

  /** Python's `s.replace(pat, rep, 1)`. */
  function ReplaceFirst(s: string, pat: string, rep: string): string
    requires |pat| > 0
    decreases |s|
  {
    if |s| < |pat| then s
    else if s[..|pat|] == pat then rep + s[|pat|..]
    else [s[0]] + ReplaceFirst(s[1..], pat, rep)
  }

  /** A text that starts with the pattern has that occurrence replaced. */
  lemma ReplaceFirstLeading(pat: string, rep: string, t: string)
    requires |pat| > 0
    ensures ReplaceFirst(pat + t, pat, rep) == rep + t
  {
    assert (pat + t)[..|pat|] == pat && (pat + t)[|pat|..] == t;
  }

  /** Python's `s.replace(a, b)` for single characters. */
  function ReplaceChar(s: string, a: char, b: char): (r: string)
    ensures |r| == |s|
    ensures forall i :: 0 <= i < |s| ==> r[i] == (if s[i] == a then b else s[i])
  {
    seq(|s|, i requires 0 <= i < |s| => if s[i] == a then b else s[i])
  }

  /** A character the text does not hold does not occur in it as a one-letter text. */
  lemma CharAbsent(s: string, c: char)
    requires c !in s
    ensures !Contains(s, [c])
  {
    forall k | 0 <= k <= |s| - 1 ensures !OccursAt(s, [c], k) {
      assert s[k..k + 1][0] == s[k];
    }
  }

  /** Removing every occurrence of a pattern from a text that does not contain
      it leaves the text unchanged. */
  lemma {:induction false} ReplaceAllAbsent(s: string, pat: string, rep: string)
    requires |pat| > 0 && !Contains(s, pat)
    ensures ReplaceAll(s, pat, rep) == s
    decreases |s|
  {
    if |s| >= |pat| {
      if s[..|pat|] == pat {
        ContainsAt(s, pat, 0);
      }
      if Contains(s[1..], pat) {
        var i :| 0 <= i <= |s[1..]| - |pat| && OccursAt(s[1..], pat, i);
        assert s[1 + i..1 + i + |pat|] == s[1..][i..i + |pat|];
        ContainsAt(s, pat, 1 + i);
      }
      ReplaceAllAbsent(s[1..], pat, rep);
    }
  }

  /** `(name + ".log").replace(".log", "")` gives back `name` whenever `name`
      itself holds no ".log": an occurrence cannot straddle the boundary because
      no proper prefix of ".log" is also a suffix of it. */
  lemma {:induction false} StripLogSuffix(name: string)
    requires !Contains(name, ".log")
    ensures ReplaceAll(name + ".log", ".log", "") == name
    decreases |name|
  {
    var s := name + ".log";
    if name == [] {
      assert s[..4] == ".log";
      assert ReplaceAll(s, ".log", "") == "" + ReplaceAll(s[4..], ".log", "");
    } else {
      if |name| >= 4 {
        assert name[..4] == s[..4];
        assert !OccursAt(name, ".log", 0);
      } else {
        // an occurrence at 0 would start inside `name` and end inside ".log"
        assert s[|name|] == '.' && ".log"[|name|] != '.';
        assert s[..4][|name|] == s[|name|];
      }
      assert s[..4] != ".log";
      if Contains(name[1..], ".log") {
        var i :| 0 <= i <= |name[1..]| - 4 && OccursAt(name[1..], ".log", i);
        assert name[1 + i..1 + i + 4] == name[1..][i..i + 4];
        ContainsAt(name, ".log", 1 + i);
      }
      assert s[1..] == name[1..] + ".log";
      StripLogSuffix(name[1..]);
    }
  }

  function DigitChar(d: nat): char
    requires d < 10
  {
    "0123456789"[d]
  }

  function DigitValue(c: char): nat
    requires IsDigit(c)
  {
    c as int - '0' as int
  }

  /** Python's `str(n)` for a non-negative integer. */
  function NatToString(n: nat): (r: string)
    ensures |r| >= 1 && AllDigits(r)
  {
    if n < 10 then [DigitChar(n)] else NatToString(n / 10) + [DigitChar(n % 10)]
  }

  /** Python's `int(s)` for a string of decimal digits. */
  function ParseNat(s: string): nat
    requires AllDigits(s)
  {
    if s == [] then 0 else ParseNat(s[..|s| - 1]) * 10 + DigitValue(s[|s| - 1])
  }

  /** Reading back a printed number gives the number. */
  lemma {:induction false} ParseNatToString(n: nat)
    ensures ParseNat(NatToString(n)) == n
  {
    var s := NatToString(n);
    if n < 10 {
      assert s[..|s| - 1] == [];
    } else {
      assert s[..|s| - 1] == NatToString(n / 10);
      ParseNatToString(n / 10);
    }
  }

  lemma NatToStringInjective(m: nat, n: nat)
    requires NatToString(m) == NatToString(n)
    ensures m == n
  {
    ParseNatToString(m);
    ParseNatToString(n);
  }

  /** Python's `str(i)` for any integer. */
  function IntToString(i: int): (r: string)
    ensures |r| >= 1 && ':' !in r
  {
    if i < 0 then "-" + NatToString(-i) else NatToString(i)
  }

  /** Distinct integers print differently. */
  lemma IntToStringInjective(i: int, j: int)
    requires IntToString(i) == IntToString(j)
    ensures i == j
  {
    assert (IntToString(i)[0] == '-') == (i < 0);
    assert (IntToString(j)[0] == '-') == (j < 0);
    if i < 0 {
      assert IntToString(i)[1..] == NatToString(-i);
      assert IntToString(j)[1..] == NatToString(-j);
      NatToStringInjective(-i, -j);
    } else {
      NatToStringInjective(i, j);
    }
  }

  /** The length of the run of characters at the front of `s` that satisfy `p`. */
  function RunLength(s: string, p: char -> bool): (n: nat)
    ensures n <= |s|
    ensures forall k :: 0 <= k < n ==> p(s[k])
    ensures n == |s| || !p(s[n])
  {
    if |s| > 0 && p(s[0]) then 1 + RunLength(s[1..], p) else 0
  }

  /** A run of `n` characters satisfying `p`, followed by the end of the text or
      by one that does not, has run length exactly `n`. */
  lemma {:induction false} RunLengthExact(s: string, p: char -> bool, n: nat)
    requires n <= |s| && (forall k :: 0 <= k < n ==> p(s[k])) && (n == |s| || !p(s[n]))
    ensures RunLength(s, p) == n
    decreases n
  {
    if n > 0 {
      RunLengthExact(s[1..], p, n - 1);
    }
  }

  /** The maximal run of decimal digits at the front of `s`. */
  function DigitRun(s: string): (d: string)
    ensures AllDigits(d) && StartsWith(s, d)
    ensures |d| == |s| || !IsDigit(s[|d|])
  {
    s[..RunLength(s, IsDigit)]
  }

  /** The number of whitespace characters at the front of `s`. */
  function SpaceRun(s: string): (n: nat)
    ensures n <= |s| && AllSpace(s[..n])
    ensures n == |s| || !IsSpace(s[n])
  {
    RunLength(s, IsSpace)
  }

  /** A regex search: the value the matcher `at` gives at the leftmost position
      `from` or later where it gives one. */
  function Search<T>(s: string, at: (string, nat) -> Option<T>, from: nat): (r: Option<T>)
    ensures r.Some? ==> exists i :: from <= i <= |s| && at(s, i) == r && forall j :: from <= j < i ==> at(s, j).None?
    ensures r.None? ==> forall j :: from <= j <= |s| ==> at(s, j).None?
    decreases |s| + 1 - from
  {
    if from > |s| then None
    else if at(s, from).Some? then at(s, from)
    else Search(s, at, from + 1)
  }
  /** The search finds the first position where the matcher gives a value. */
  lemma SearchFirst<T>(s: string, at: (string, nat) -> Option<T>, from: nat, p: nat)
    requires from <= p <= |s| && at(s, p).Some?
    requires forall j :: from <= j < p ==> at(s, j).None?
    ensures Search(s, at, from) == at(s, p)
  {
    var r := Search(s, at, from);
    if r.Some? {
      var i :| from <= i <= |s| && at(s, i) == r && forall j :: from <= j < i ==> at(s, j).None?;
      assert !(i < p) && !(p < i);
    }
  }
  /** The search finds something when the matcher gives a value at some position. */
  lemma SearchFinds<T>(s: string, at: (string, nat) -> Option<T>, from: nat, p: nat)
    requires from <= p <= |s| && at(s, p).Some?
    ensures Search(s, at, from).Some?
  {
  }
}
