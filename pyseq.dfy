/** Python list slicing with possibly negative bounds. */
module PySeq {

  /** How Python normalises one slice bound against a length `n`: a negative
      bound counts from the end, and the result is clamped to `0..n`. */
  function PyIndex(i: int, n: nat): (r: nat)
    ensures r <= n
    ensures 0 <= i <= n ==> r == i
    ensures i > n ==> r == n
    ensures i < 0 ==> r == if i + n < 0 then 0 else i + n
  {
    if i < 0 then (if i + n < 0 then 0 else i + n) else if i > n then n else i
  }

  /** `s[a:b]`. */
  function PySlice<T>(s: seq<T>, a: int, b: int): seq<T> {
    var i, j := PyIndex(a, |s|), PyIndex(b, |s|);
    if i < j then s[i..j] else []
  }

  /** `s[:b]`. */
  function PyTake<T>(s: seq<T>, b: int): seq<T> {
    PySlice(s, 0, |s|)[..PyIndex(b, |s|)]
  }

  /** `s[a:]`. */
  function PyDrop<T>(s: seq<T>, a: int): seq<T> {
    s[PyIndex(a, |s|)..]
  }

  /** With non-negative bounds, `s[a:a+k]` has at most `k` items, taken in order
      from position `a`. */
  lemma PySliceWindow<T>(s: seq<T>, a: nat, k: nat)
    ensures |PySlice(s, a, a + k)| <= k
    ensures a <= |s| ==> PySlice(s, a, a + k) == s[a..if a + k <= |s| then a + k else |s|]
    ensures a >= |s| ==> PySlice(s, a, a + k) == []
  {
  }

  /** `s[:k]` with `k >= 0` is the first `min(k, |s|)` items. */
  lemma PyTakePrefix<T>(s: seq<T>, k: nat)
    ensures PyTake(s, k) == s[..if k <= |s| then k else |s|]
  {
  }

  /** `s[-k:]` keeps the last `k` items when `k >= 1`, but `s[-0:]` is the whole list. */
  lemma PyDropNegative<T>(s: seq<T>, k: nat)
    ensures k == 0 ==> PyDrop(s, -(k as int)) == s
    ensures k >= 1 ==> PyDrop(s, -(k as int)) == s[if k <= |s| then |s| - k else 0..]
    ensures k >= 1 ==> |PyDrop(s, -(k as int))| <= k
  {
  }

  /** `s[a:]` is a suffix of `s`, so everything in it is in `s`. */
  lemma PyDropSuffix<T>(s: seq<T>, a: int)
    ensures var r := PyDrop(s, a); |r| <= |s| && r == s[|s| - |r|..]
    ensures forall x :: x in PyDrop(s, a) ==> x in s
  {
  }

  /** `xs.index(x)`: the position of the first occurrence. */
  function ListIndex<T(==)>(xs: seq<T>, x: T): (i: nat)
    requires x in xs
    ensures i < |xs| && xs[i] == x && x !in xs[..i]
  {
    if xs[0] == x then 0
    else
      assert xs == [xs[0]] + xs[1..];
      1 + ListIndex(xs[1..], x)
  }

  /** The position of the first item satisfying `p` (`|xs|` if none does): the
      shape of a `for x in xs: if p(x): return ...` scan. */
  function FirstWhere<T>(xs: seq<T>, p: T -> bool): (k: nat)
    ensures k <= |xs|
    ensures forall j :: 0 <= j < k ==> !p(xs[j])
    ensures k < |xs| ==> p(xs[k])
  {
    if xs == [] then 0
    else if p(xs[0]) then 0
    else
      var k := FirstWhere(xs[1..], p);
      assert forall j :: 1 <= j < 1 + k ==> xs[j] == xs[1..][j - 1];
      1 + k
  }

  /** `[x for x in xs if p(x)]`: exactly the items satisfying `p`, in order. */
  function Filter<T(==)>(xs: seq<T>, p: T -> bool): (r: seq<T>)
    ensures |r| <= |xs|
    ensures forall i :: 0 <= i < |r| ==> r[i] in xs && p(r[i])
    ensures forall j :: 0 <= j < |xs| && p(xs[j]) ==> xs[j] in r
  {
    if xs == [] then []
    else
      var rest := Filter(xs[1..], p);
      assert forall j :: 1 <= j < |xs| ==> xs[j] == xs[1..][j - 1];
      if p(xs[0]) then [xs[0]] + rest else rest
  }

  /** Filtering a concatenation filters each part. */
  lemma {:induction false} FilterAppend<T>(xs: seq<T>, ys: seq<T>, p: T -> bool)
    ensures Filter(xs + ys, p) == Filter(xs, p) + Filter(ys, p)
    decreases |xs|
  {
    if xs == [] {
      assert xs + ys == ys;
    } else {
      assert (xs + ys)[0] == xs[0] && (xs + ys)[1..] == xs[1..] + ys;
      FilterAppend(xs[1..], ys, p);
    }
  }
}
