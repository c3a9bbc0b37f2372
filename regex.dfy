/** The small regular-expression subset the core's pattern tables use, with
    Python `re.search` truthiness: literal words, `.`, `.?`, `.*`, `\s*` and `\d+`. */
module Regex {
  import opened Text

  datatype Atom =
    | Word(w: string)   // a literal run of characters
    | AnyOne            // `.`
    | AnyOpt            // `.?`
    | AnyStar           // `.*`
    | SpaceStar         // `\s*`
    | DigitPlus         // `\d+`

  type Pattern = seq<Atom>

  /** `.` matches every character but a line break. */
  predicate Dot(c: char) { c != '\n' }

  /** `p` matches some prefix of `s` (the backtracking engine finds a match
      exactly when one exists). */
  predicate MatchPrefix(p: Pattern, s: string)
    decreases |p|, |s|
  {
    if p == [] then true
    else match p[0]
      case Word(w) => StartsWith(s, w) && MatchPrefix(p[1..], s[|w|..])
      case AnyOne => s != [] && Dot(s[0]) && MatchPrefix(p[1..], s[1..])
      case AnyOpt => MatchPrefix(p[1..], s) || (s != [] && Dot(s[0]) && MatchPrefix(p[1..], s[1..]))
      case AnyStar => MatchPrefix(p[1..], s) || (s != [] && Dot(s[0]) && MatchPrefix(p, s[1..]))
      case SpaceStar => MatchPrefix(p[1..], s) || (s != [] && IsSpace(s[0]) && MatchPrefix(p, s[1..]))
      case DigitPlus =>
        s != [] && IsDigit(s[0]) && (MatchPrefix(p[1..], s[1..]) || MatchPrefix(p, s[1..]))
  }

  /** `bool(re.search(p, s))`. */
  predicate SearchIn(p: Pattern, s: string) {
    exists i | 0 <= i <= |s| :: MatchPrefix(p, s[i..])
  }

  /** `any(re.search(p, s) for p in ps)`. */
  predicate SearchAny(ps: seq<Pattern>, s: string) {
    exists k | 0 <= k < |ps| :: SearchIn(ps[k], s)
  }

  /** Searching for a single word is Python's `w in s`. */
  lemma SearchWord(w: string, s: string)
    ensures SearchIn([Word(w)], s) <==> Contains(s, w)
  {
    forall i | 0 <= i <= |s| ensures MatchPrefix([Word(w)], s[i..]) <==> OccursAt(s, w, i) {
      if i + |w| <= |s| {
        assert s[i..][..|w|] == s[i..i + |w|];
      }
    }
    if Contains(s, w) {
      var i :| 0 <= i <= |s| - |w| && OccursAt(s, w, i);
      assert MatchPrefix([Word(w)], s[i..]);
    }
  }

  /** `.*` followed by `p` matches a text whose first `k` characters are not
      line breaks and whose rest `p` matches. */
  lemma {:induction false} AnyStarSkips(p: Pattern, s: string, k: nat)
    requires k <= |s| && forall j :: 0 <= j < k ==> Dot(s[j])
    requires MatchPrefix(p, s[k..])
    ensures MatchPrefix([AnyStar] + p, s)
    decreases k
  {
    assert ([AnyStar] + p)[1..] == p;
    if k > 0 {
      assert s[1..][k - 1..] == s[k..];
      AnyStarSkips(p, s[1..], k - 1);
    }
  }

  /** Whatever a pattern matches holds every character of the pattern's words. */
  lemma {:induction false} MatchNeedsChar(p: Pattern, k: nat, s: string, c: char)
    requires k < |p| && p[k].Word? && c in p[k].w
    ensures MatchPrefix(p, s) ==> c in s
    decreases |p|, |s|
  {
    if MatchPrefix(p, s) {
      match p[0]
      case Word(w) =>
        if k == 0 {
          assert s[..|w|] == w;
        } else {
          MatchNeedsChar(p[1..], k - 1, s[|w|..], c);
        }
      case AnyOne =>
        MatchNeedsChar(p[1..], k - 1, s[1..], c);
      case AnyOpt =>
        MatchNeedsChar(p[1..], k - 1, s, c);
        if s != [] {
          MatchNeedsChar(p[1..], k - 1, s[1..], c);
        }
      case AnyStar =>
        MatchNeedsChar(p[1..], k - 1, s, c);
        if s != [] {
          MatchNeedsChar(p, k, s[1..], c);
        }
      case SpaceStar =>
        MatchNeedsChar(p[1..], k - 1, s, c);
        if s != [] {
          MatchNeedsChar(p, k, s[1..], c);
        }
      case DigitPlus =>
        MatchNeedsChar(p[1..], k - 1, s[1..], c);
        MatchNeedsChar(p, k, s[1..], c);
    }
  }

  /** A pattern holding an upper-case letter never matches lower-cased text. */
  lemma UpperNeverMatchesLowered(p: Pattern, k: nat, c: char, s: string)
    requires k < |p| && p[k].Word? && c in p[k].w && 'A' <= c <= 'Z'
    ensures !SearchIn(p, Lower(s))
  {
    var t := Lower(s);
    forall i | 0 <= i <= |t| ensures !MatchPrefix(p, t[i..]) {
      MatchNeedsChar(p, k, t[i..], c);
      forall j | 0 <= j < |t[i..]| ensures t[i..][j] != c {
        assert t[i..][j] == LowerChar(s[i + j]);
      }
    }
  }
}
