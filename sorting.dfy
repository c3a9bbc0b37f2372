/** Python's stable `sorted`, and its string ordering. */
module Sorting {

  /** Python's `a <= b` on strings: code-point lexicographic order. */
  predicate LexLe(a: string, b: string)
    decreases |a|
  {
    if a == [] then true
    else if b == [] then false
    else if a[0] != b[0] then a[0] < b[0]
    else LexLe(a[1..], b[1..])
  }

  lemma {:induction false} LexLeTotal(a: string, b: string)
    ensures LexLe(a, b) || LexLe(b, a)
    decreases |a|
  {
    if a != [] && b != [] && a[0] == b[0] {
      LexLeTotal(a[1..], b[1..]);
    }
  }

  lemma {:induction false} LexLeTransitive(a: string, b: string, c: string)
    requires LexLe(a, b) && LexLe(b, c)
    ensures LexLe(a, c)
    decreases |a|
  {
    if a != [] && b != [] && c != [] && a[0] == b[0] && b[0] == c[0] {
      LexLeTransitive(a[1..], b[1..], c[1..]);
    }
  }

  /** `le(x, y)`: `x` may stand before `y` in the sorted output. */
  ghost predicate Total<T(!new)>(le: (T, T) -> bool) {
    forall x, y :: le(x, y) || le(y, x)
  }

  predicate Sorted<T>(s: seq<T>, le: (T, T) -> bool) {
    forall i :: 0 < i < |s| ==> le(s[i - 1], s[i])
  }

  /** Inserts `x` before the first element it may precede; since `x` comes
      earlier in the input than every element of `ys`, equal elements keep
      their input order (Python's sort is stable). */
  function Insert<T>(x: T, ys: seq<T>, le: (T, T) -> bool): (r: seq<T>)
    ensures multiset(r) == multiset(ys) + multiset{x}
    ensures |r| == |ys| + 1
    ensures r[0] == x || (ys != [] && r[0] == ys[0])
  {
    if ys == [] || le(x, ys[0]) then [x] + ys
    else
      assert ys == [ys[0]] + ys[1..];
      [ys[0]] + Insert(x, ys[1..], le)
  }

  /** `sorted(xs)` under the order `le`: a stable insertion sort. */
  function SortBy<T>(xs: seq<T>, le: (T, T) -> bool): (r: seq<T>)
    ensures multiset(r) == multiset(xs)
    ensures |r| == |xs|
  {
    if xs == [] then []
    else
      assert xs == [xs[0]] + xs[1..];
      Insert(xs[0], SortBy(xs[1..], le), le)
  }

  lemma {:induction false} InsertSorted<T(!new)>(x: T, ys: seq<T>, le: (T, T) -> bool)
    requires Total(le) && Sorted(ys, le)
    ensures Sorted(Insert(x, ys, le), le)
  {
    if ys != [] && !le(x, ys[0]) {
      InsertSorted(x, ys[1..], le);
      var r := Insert(x, ys, le);
      var t := Insert(x, ys[1..], le);
      assert r == [ys[0]] + t;
      assert le(ys[0], x);
      assert |ys| > 1 ==> le(ys[0], ys[1]);
      forall i | 0 < i < |r| ensures le(r[i - 1], r[i]) {
        if i > 1 {
          assert r[i - 1] == t[i - 2] && r[i] == t[i - 1];
        }
      }
    }
  }

  /** The output of the sort is ordered by `le` and is a permutation of the input. */
  lemma {:induction false} SortBySpec<T(!new)>(xs: seq<T>, le: (T, T) -> bool)
    requires Total(le)
    ensures Sorted(SortBy(xs, le), le)
    ensures multiset(SortBy(xs, le)) == multiset(xs)
  {
    if xs != [] {
      SortBySpec(xs[1..], le);
      InsertSorted(xs[0], SortBy(xs[1..], le), le);
    }
  }

  /** The order of `sorted(xs, key=k, reverse=True)` for a string key. */
  function NewestFirst<T>(key: T -> string): (T, T) -> bool {
    (x: T, y: T) => LexLe(key(y), key(x))
  }

  lemma NewestFirstTotal<T(!new)>(key: T -> string)
    ensures Total(NewestFirst(key))
  {
    forall x: T, y: T ensures NewestFirst(key)(x, y) || NewestFirst(key)(y, x) {
      LexLeTotal(key(x), key(y));
    }
  }

  /** `sorted(xs, key=k, reverse=True)` for a string key such as an ISO timestamp. */
  function SortDescByText<T>(xs: seq<T>, key: T -> string): (r: seq<T>)
    ensures multiset(r) == multiset(xs)
  {
    SortBy(xs, NewestFirst(key))
  }

  /** Every adjacent pair of the descending sort is in non-increasing key order,
      and the sort loses and invents nothing. */
  lemma SortDescByTextSpec<T(!new)>(xs: seq<T>, key: T -> string)
    ensures forall i :: 0 < i < |SortDescByText(xs, key)| ==>
      LexLe(key(SortDescByText(xs, key)[i]), key(SortDescByText(xs, key)[i - 1]))
    ensures multiset(SortDescByText(xs, key)) == multiset(xs)
  {
    NewestFirstTotal(key);
    SortBySpec(xs, NewestFirst(key));
  }
}
