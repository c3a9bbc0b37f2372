/** File-system paths as Python's `pathlib.PurePosixPath` sees them. */
module Paths {
  import opened Text

  /** A path: its root ("" for a relative path, "/", or the "//" that pathlib
      keeps when a path opens with exactly two slashes) and its segments. */
  datatype Path = Path(root: string, segs: seq<string>)

  /** A segment pathlib keeps: not empty, not ".", no "/". */
  predicate ValidSeg(s: string) { s != "" && s != "." && '/' !in s }

  predicate ValidRoot(root: string) { root == "" || root == "/" || root == "//" }

  predicate ValidPath(p: Path) { ValidRoot(p.root) && forall k :: 0 <= k < |p.segs| ==> ValidSeg(p.segs[k]) }

  /** The root pathlib reads: "//" for exactly two leading slashes, "/" for one
      or three and more, "" for none. */
  function RootOf(s: string): (root: string)
    ensures ValidRoot(root)
    ensures root == "" <==> !StartsWith(s, "/")
    ensures root == "//" <==> StartsWith(s, "//") && !StartsWith(s, "///")
  {
    if StartsWith(s, "//") && !StartsWith(s, "///") then "//"
    else if StartsWith(s, "/") then "/"
    else ""
  }

  /** Drops the empty and "." pieces of a split path. */
  function KeepSegs(pieces: seq<string>): (r: seq<string>)
    ensures forall k :: 0 <= k < |r| ==> r[k] in pieces && r[k] != "" && r[k] != "."
  {
    if pieces == [] then []
    else if pieces[0] == "" || pieces[0] == "." then KeepSegs(pieces[1..])
    else [pieces[0]] + KeepSegs(pieces[1..])
  }

  /** `Path(s)`. */
  function ParsePath(s: string): (p: Path)
    ensures ValidPath(p)
  {
    Path(RootOf(s), KeepSegs(Split(s, '/')))
  }

  /** `path.parts`: the root first for an absolute path, then the segments. */
  function Parts(p: Path): seq<string> {
    (if p.root != "" then [p.root] else []) + p.segs
  }

  /** `path.name`: the last segment, or "" for the root or an empty path. */
  function Name(p: Path): string {
    if p.segs == [] then "" else p.segs[|p.segs| - 1]
  }

  /** `str(path)`. */
  function Str(p: Path): string {
    if p.root != "" then p.root + Join(p.segs, "/")
    else if p.segs == [] then "."
    else Join(p.segs, "/")
  }

  /** `path / s`: an absolute `s` replaces the path, otherwise its segments are appended. */
  function Child(p: Path, s: string): Path {
    if StartsWith(s, "/") then ParsePath(s) else Path(p.root, p.segs + KeepSegs(Split(s, '/')))
  }

  /** Appending one well-formed segment adds exactly that segment. */
  lemma ChildSeg(p: Path, s: string)
    requires ValidSeg(s)
    ensures Child(p, s) == Path(p.root, p.segs + [s])
  {
    assert Split(s, '/') == [s];
    assert s[0] in s;
    assert s[..1] == [s[0]] && s[0] != '/';
    assert !StartsWith(s, "/");
    assert KeepSegs([s]) == [s] + KeepSegs([]);
  }

  /** Segments that are already well formed are all kept. */
  lemma {:induction false} KeepSegsValid(segs: seq<string>)
    requires forall k :: 0 <= k < |segs| ==> ValidSeg(segs[k])
    ensures KeepSegs(segs) == segs
    decreases |segs|
  {
    if segs != [] {
      assert ValidSeg(segs[0]);
      KeepSegsValid(segs[1..]);
    }
  }

  /** An empty last piece is dropped. */
  lemma {:induction false} KeepSegsTrailing(pieces: seq<string>)
    ensures KeepSegs(pieces + [""]) == KeepSegs(pieces)
    decreases |pieces|
  {
    if pieces != [] {
      assert (pieces + [""])[1..] == pieces[1..] + [""];
      KeepSegsTrailing(pieces[1..]);
    }
  }

  /** A trailing separator splits off one more, empty, piece. */
  lemma {:induction false} SplitTrailing(s: string, sep: char)
    ensures Split(s + [sep], sep) == Split(s, sep) + [""]
    decreases |s|
  {
    if sep !in s {
      SplitLastSep(s, sep);
    } else {
      var i := IndexOf(s, sep);
      SplitTrailing(s[i + 1..], sep);
      SplitSameHead(s, sep, i);
      SplitCut(s, sep, i);
      ConsSnoc(s[..i], Split(s[i + 1..], sep), "");
    }
  }

  /** With no separator before it, the trailing one splits `s` from "". */
  lemma SplitLastSep(s: string, sep: char)
    requires sep !in s
    ensures Split(s + [sep], sep) == [s, ""]
  {
    var t := s + [sep];
    assert t[..|s|] == s;
    IndexOfUnique(t, sep, |s|);
    assert t[|s| + 1..] == [];
    assert Split([], sep) == [""];
  }

  /** `Split` cuts at the first separator. */
  lemma SplitAtFirst(s: string, sep: char, i: nat)
    requires sep in s && i == IndexOf(s, sep)
    ensures Split(s, sep) == [s[..i]] + Split(s[i + 1..], sep)
  {
  }

  lemma ConsSnoc<T>(h: T, r: seq<T>, x: T)
    ensures [h] + (r + [x]) == ([h] + r) + [x]
  {
  }

  /** Appending a separator does not move the first one. */
  lemma SplitSameHead(s: string, sep: char, i: nat)
    requires i < |s| && s[i] == sep && sep !in s[..i]
    ensures Split(s + [sep], sep) == [s[..i]] + Split(s[i + 1..] + [sep], sep)
  {
    AppendSlices(s, sep, i);
    SplitCut(s + [sep], sep, i);
  }

  /** The slices of `s + [x]` around an index of `s`. */
  lemma AppendSlices<T>(s: seq<T>, x: T, i: nat)
    requires i < |s|
    ensures (s + [x])[..i] == s[..i] && (s + [x])[i] == s[i] && (s + [x])[i + 1..] == s[i + 1..] + [x]
  {
  }

  /** A cut at a separator with none before it is the first cut. */
  lemma SplitCut(t: string, sep: char, i: nat)
    requires i < |t| && t[i] == sep && sep !in t[..i]
    ensures Split(t, sep) == [t[..i]] + Split(t[i + 1..], sep)
  {
    IndexOfUnique(t, sep, i);
    SplitAtFirst(t, sep, i);
  }

  /** `Path(s + "/")` is `Path(s)`: a trailing slash is dropped. The roots
      "/" and "//" are the exceptions: one more slash turns "/" into the root
      "//" and "//" into the root "/". */
  lemma ParseTrailingSlash(s: string)
    requires s != "" && s != "/" && s != "//"
    ensures ParsePath(s + "/") == ParsePath(s)
  {
    RootTrailingSlash(s);
    SplitTrailing(s, '/');
    KeepSegsTrailing(Split(s, '/'));
  }

  /** The root of `s + "/"` is that of `s` unless `s` is all of a root. */
  lemma RootTrailingSlash(s: string)
    requires s != "" && s != "/" && s != "//"
    ensures RootOf(s + "/") == RootOf(s)
  {
    var t := s + "/";
    if |s| >= 3 {
      assert t[..3] == s[..3] && t[..2] == s[..2] && t[..1] == s[..1];
    } else if |s| == 2 {
      assert t[..2] == s && t[..1] == s[..1] && t[..3] == s + "/";
    } else {
      assert t[..1] == s && s != "/";
    }
  }

  /** The two-slash root is a root of its own: `Path("//")` is not `Path("/")`,
      and a third slash collapses it to `Path("/")`. */
  lemma DoubleSlashRoot()
    ensures ParsePath("//") == Path("//", [])
    ensures ParsePath("/") == Path("/", [])
    ensures ParsePath("///") == ParsePath("/")
  {
    ParseRoot();
    ParseDoubleRoot();
    var t := "//" + "/";
    assert t == "///";
    assert t[..3] == "///";
    SplitTrailing("//", '/');
    KeepSegsTrailing(Split("//", '/'));
  }

  /** `Path(str(p))` is `p`: a path in normal form reads back as itself, so
      normalising twice is normalising once. */
  lemma ParseStr(p: Path)
    requires ValidPath(p)
    ensures ParsePath(Str(p)) == p
  {
    if p.segs == [] {
      if p.root == "" { ParseDot(); }
      else if p.root == "/" { ParseRoot(); }
      else { ParseDoubleRoot(); }
    } else {
      NoSlashInSegs(p);
      KeepSegsValid(p.segs);
      JoinFirst(p.segs, "/");
      assert ValidSeg(p.segs[0]) && Join(p.segs, "/")[0] == p.segs[0][0] && p.segs[0][0] in p.segs[0];
      if p.root == "" { ParseRelative(p.segs); }
      else if p.root == "/" { ParseAbsolute(p.segs); }
      else { ParseDoubleAbsolute(p.segs); }
    }
  }

  lemma ParseRoot()
    ensures ParsePath("/") == Path("/", [])
  {
    SplitLastSep([], '/');
    assert [] + ['/'] == "/";
    assert KeepSegs(["", ""]) == KeepSegs([""]);
  }

  lemma ParseDoubleRoot()
    ensures ParsePath("//") == Path("//", [])
  {
    SplitLastSep([], '/');
    assert [] + ['/'] == "/";
    SplitTrailing("/", '/');
    assert "/" + ['/'] == "//";
    assert Split("//", '/') == ["", "", ""];
    assert KeepSegs(["", "", ""]) == KeepSegs(["", ""]) == KeepSegs([""]);
    var t := "//";
    assert t[..2] == "//";
  }

  lemma ParseDot()
    ensures ParsePath(".") == Path("", [])
  {
    var d := ".";
    assert |d| == 1 && d[0] == '.' && '/' !in d;
    assert Split(d, '/') == [d];
    assert KeepSegs([d]) == KeepSegs([]);
    assert d[..1] != "/";
  }

  lemma ParseAbsolute(segs: seq<string>)
    requires segs != [] && forall k :: 0 <= k < |[""] + segs| ==> '/' !in ([""] + segs)[k]
    requires KeepSegs(segs) == segs && Join(segs, "/")[0] != '/'
    ensures ParsePath("/" + Join(segs, "/")) == Path("/", segs)
  {
    var parts := [""] + segs;
    assert parts[1..] == segs;
    assert Join(parts, "/") == "" + "/" + Join(segs, "/");
    SplitJoin(parts, '/');
    RootAfterSlashes(Join(segs, "/"));
  }

  lemma ParseDoubleAbsolute(segs: seq<string>)
    requires segs != [] && forall k :: 0 <= k < |[""] + segs| ==> '/' !in ([""] + segs)[k]
    requires KeepSegs(segs) == segs && Join(segs, "/")[0] != '/'
    ensures ParsePath("//" + Join(segs, "/")) == Path("//", segs)
  {
    var parts := [""] + ([""] + segs);
    assert parts[1..] == [""] + segs && ([""] + segs)[1..] == segs;
    assert Join([""] + segs, "/") == "" + "/" + Join(segs, "/");
    assert Join(parts, "/") == "" + "/" + ("" + "/" + Join(segs, "/"));
    assert forall k :: 0 <= k < |parts| ==> '/' !in parts[k] by {
      forall k | 0 <= k < |parts| ensures '/' !in parts[k] {
        if k > 0 { assert parts[k] == ([""] + segs)[k - 1]; }
      }
    }
    SplitJoin(parts, '/');
    assert KeepSegs(parts) == KeepSegs([""] + segs) == KeepSegs(segs);
    assert "" + "/" + ("" + "/" + Join(segs, "/")) == "//" + Join(segs, "/");
    RootAfterSlashes(Join(segs, "/"));
  }

  /** One or two slashes before a text that does not open with one are the root. */
  lemma RootAfterSlashes(j: string)
    requires j != [] && j[0] != '/'
    ensures RootOf("/" + j) == "/" && RootOf("//" + j) == "//"
  {
    var t1 := "/" + j;
    var t2 := "//" + j;
    assert t1[..1] == "/" && t1[1] == j[0];
    assert t2[..2] == "//" && t2[2] == j[0];
  }

  lemma ParseRelative(segs: seq<string>)
    requires segs != [] && ValidSeg(segs[0]) && forall k :: 0 <= k < |segs| ==> '/' !in segs[k]
    requires KeepSegs(segs) == segs
    ensures ParsePath(Join(segs, "/")) == Path("", segs)
  {
    var t := Join(segs, "/");
    SplitJoin(segs, '/');
    JoinFirst(segs, "/");
    assert t[0] == segs[0][0] && segs[0][0] in segs[0];
  }

  /** No segment of a well-formed path holds the separator. */
  lemma NoSlashInSegs(p: Path)
    requires ValidPath(p)
    ensures forall k :: 0 <= k < |p.segs| ==> '/' !in p.segs[k]
    ensures forall k :: 0 <= k < |[""] + p.segs| ==> '/' !in ([""] + p.segs)[k]
  {
    forall k | 0 <= k < |[""] + p.segs| ensures '/' !in ([""] + p.segs)[k] {
      if k > 0 {
        assert ([""] + p.segs)[k] == p.segs[k - 1] && ValidSeg(p.segs[k - 1]);
      }
    }
  }

  /** A join starts with its first part. */
  lemma JoinFirst(parts: seq<string>, sep: string)
    requires parts != []
    ensures |parts[0]| <= |Join(parts, sep)| && Join(parts, sep)[..|parts[0]|] == parts[0]
  {
    if |parts| > 1 {
      assert Join(parts, sep) == parts[0] + (sep + Join(parts[1..], sep));
    }
  }
}
