/** A Python dict used as a counter: `if k not in d: d[k] = 0` and then
    `d[k] += 1` for each key of a loop. A dict keeps its insertion order, so a
    counter is its keys in first-seen order together with the count of each;
    `sorted(d.items(), key=lambda x: x[1], reverse=True)` lists it by count. */
module Tally {
  import opened PySeq
  import opened Sorting

  datatype Counter = Counter(order: seq<string>, count: map<string, nat>)

  /** How often `k` occurs in `keys`. */
  function Occurrences(keys: seq<string>, k: string): (n: nat)
    ensures n <= |keys|
    ensures n > 0 <==> k in keys
  {
    if keys == [] then 0
    else
      var p := keys[..|keys| - 1];
      assert keys == p + [keys[|keys| - 1]];
      Occurrences(p, k) + (if keys[|keys| - 1] == k then 1 else 0)
  }

  /** One pass of the counting loop for key `k`. */
  function Bump(c: Counter, k: string): Counter {
    var d := if k in c.count then c else Counter(c.order + [k], c.count[k := 0]);
    Counter(d.order, d.count[k := d.count[k] + 1])
  }

  /** `if k not in d: d[k] = 0` followed by `d[k] += 1`, on the dict `count`
      whose keys were inserted in the order `order`. */
  method Increment(order: seq<string>, count: map<string, nat>, k: string)
    returns (order': seq<string>, count': map<string, nat>)
    ensures Counter(order', count') == Bump(Counter(order, count), k)
  {
    order', count' := order, count;
    if k !in count' {
      order' := order' + [k];
      count' := count'[k := 0];
    }
    count' := count'[k := count'[k] + 1];
  }

  /** The counter after the loop over `keys`. */
  function TallyOf(keys: seq<string>): Counter {
    if keys == [] then Counter([], map[])
    else Bump(TallyOf(keys[..|keys| - 1]), keys[|keys| - 1])
  }

  predicate Distinct(s: seq<string>) {
    forall i, j :: 0 <= i < j < |s| ==> s[i] != s[j]
  }

  /** The counter lists each key seen exactly once, and nothing else, and
      every count is the number of occurrences of its key. */
  lemma {:induction false} TallySpec(keys: seq<string>)
    ensures var c := TallyOf(keys);
      && Distinct(c.order)
      && (forall k :: k in c.order <==> k in c.count)
      && (forall k :: k in c.count <==> k in keys)
      && (forall k :: k in c.count ==> c.count[k] == Occurrences(keys, k))
  {
    if keys != [] {
      var p := keys[..|keys| - 1];
      TallySpec(p);
      assert keys == p + [keys[|keys| - 1]];
    }
  }

  /** `xs.index(x)` is unchanged by appending, and a newcomer's index is the old length. */
  lemma {:induction false} ListIndexAppend(xs: seq<string>, y: string, x: string)
    requires x in xs || x == y
    ensures x in xs ==> ListIndex(xs + [y], x) == ListIndex(xs, x)
    ensures x !in xs ==> ListIndex(xs + [y], x) == |xs|
  {
    if xs != [] && xs[0] != x {
      ListIndexAppend(xs[1..], y, x);
      assert (xs + [y])[1..] == xs[1..] + [y];
    }
  }

  /** Keys are listed in the order of their first occurrence. */
  lemma {:induction false} TallyFirstSeen(keys: seq<string>)
    ensures forall k :: k in TallyOf(keys).order ==> k in keys
    ensures forall i, j :: 0 <= i < j < |TallyOf(keys).order| ==>
      ListIndex(keys, TallyOf(keys).order[i]) < ListIndex(keys, TallyOf(keys).order[j])
  {
    if keys != [] {
      var p, y := keys[..|keys| - 1], keys[|keys| - 1];
      assert keys == p + [y];
      TallyFirstSeen(p);
      TallySpec(p);
      var o, o' := TallyOf(p).order, TallyOf(keys).order;
      forall k | k in o ensures ListIndex(keys, k) == ListIndex(p, k) {
        ListIndexAppend(p, y, k);
      }
      if y !in p {
        assert o' == o + [y];
        ListIndexAppend(p, y, y);
        forall i, j | 0 <= i < j < |o'| ensures ListIndex(keys, o'[i]) < ListIndex(keys, o'[j]) {
          assert o'[i] == o[i] && o[i] in o;
          if j < |o| {
            assert o'[j] == o[j] && o[j] in o;
          } else {
            assert ListIndex(p, o[i]) < |p|;
          }
        }
      } else {
        assert o' == o;
        forall i, j | 0 <= i < j < |o'| ensures ListIndex(keys, o'[i]) < ListIndex(keys, o'[j]) {
          assert o[i] in o && o[j] in o;
        }
      }
    }
  }

  /** `d.items()`: the (key, count) pairs in insertion order. */
  function Items(c: Counter): (r: seq<(string, nat)>)
    requires forall k :: k in c.order ==> k in c.count
  {
    seq(|c.order|, i requires 0 <= i < |c.order| => (c.order[i], c.count[c.order[i]]))
  }

  function SumCounts(ps: seq<(string, nat)>): nat {
    if ps == [] then 0 else ps[0].1 + SumCounts(ps[1..])
  }

  lemma {:induction false} SumCountsAppend(ps: seq<(string, nat)>, x: (string, nat))
    ensures SumCounts(ps + [x]) == SumCounts(ps) + x.1
  {
    if ps != [] {
      SumCountsAppend(ps[1..], x);
      assert (ps + [x])[1..] == ps[1..] + [x];
    }
  }

  /** Raising one count by one raises the total by one. */
  lemma {:induction false} SumCountsIncrement(ps: seq<(string, nat)>, i: nat)
    requires i < |ps|
    ensures SumCounts(ps[i := (ps[i].0, ps[i].1 + 1)]) == SumCounts(ps) + 1
  {
    if i > 0 {
      SumCountsIncrement(ps[1..], i - 1);
      assert ps[i := (ps[i].0, ps[i].1 + 1)][1..] == ps[1..][i - 1 := (ps[i].0, ps[i].1 + 1)];
    }
  }

  /** Counting a key already seen raises its item by one. */
  lemma ItemsBumpSeen(c: Counter, y: string) returns (i: nat)
    requires forall k :: k in c.order <==> k in c.count
    requires Distinct(c.order) && y in c.count
    ensures forall k :: k in Bump(c, y).order ==> k in Bump(c, y).count
    ensures i < |c.order| && c.order[i] == y
    ensures Items(Bump(c, y)) == Items(c)[i := (y, c.count[y] + 1)]
  {
    assert y in c.order;
    i :| 0 <= i < |c.order| && c.order[i] == y;
    var a, b := Items(Bump(c, y)), Items(c)[i := (y, c.count[y] + 1)];
    forall j | 0 <= j < |a| ensures a[j] == b[j] {
      assert j != i ==> c.order[j] != y;
    }
  }

  /** Counting a new key appends its item with count one. */
  lemma ItemsBumpNew(c: Counter, y: string)
    requires forall k :: k in c.order <==> k in c.count
    requires y !in c.count
    ensures forall k :: k in Bump(c, y).order ==> k in Bump(c, y).count
    ensures Items(Bump(c, y)) == Items(c) + [(y, 1)]
  {
  }

  /** The counts add up to the number of keys counted. */
  lemma {:induction false} TallyTotal(keys: seq<string>)
    ensures forall k :: k in TallyOf(keys).order ==> k in TallyOf(keys).count
    ensures SumCounts(Items(TallyOf(keys))) == |keys|
  {
    TallySpec(keys);
    if keys != [] {
      var p, y := keys[..|keys| - 1], keys[|keys| - 1];
      TallyTotal(p);
      TallySpec(p);
      var c := TallyOf(p);
      if y in c.count {
        var i := ItemsBumpSeen(c, y);
        SumCountsIncrement(Items(c), i);
      } else {
        ItemsBumpNew(c, y);
        SumCountsAppend(Items(c), (y, 1));
      }
    }
  }

  /** `key=lambda x: x[1], reverse=True`: a pair may stand before another
      with a count no larger; `sorted` is stable, so ties keep insertion order. */
  function ByCountDesc(): ((string, nat), (string, nat)) -> bool {
    (a: (string, nat), b: (string, nat)) => a.1 >= b.1
  }

  lemma ByCountDescTotal()
    ensures Total(ByCountDesc())
  {
  }

  /** The counter's items, largest count first. */
  function MostCommon(c: Counter): seq<(string, nat)>
    requires forall k :: k in c.order ==> k in c.count
  {
    SortBy(Items(c), ByCountDesc())
  }

  lemma {:induction false} SumCountsInsert(x: (string, nat), ys: seq<(string, nat)>)
    ensures SumCounts(Insert(x, ys, ByCountDesc())) == x.1 + SumCounts(ys)
  {
    if ys != [] && !ByCountDesc()(x, ys[0]) {
      SumCountsInsert(x, ys[1..]);
    }
  }

  lemma {:induction false} SumCountsSort(ps: seq<(string, nat)>)
    ensures SumCounts(SortBy(ps, ByCountDesc())) == SumCounts(ps)
  {
    if ps != [] {
      SumCountsSort(ps[1..]);
      SumCountsInsert(ps[0], SortBy(ps[1..], ByCountDesc()));
    }
  }

  /** The items of a counter are its keys with their counts, one per key. */
  lemma ItemsMembers(keys: seq<string>)
    ensures forall k :: k in TallyOf(keys).order ==> k in TallyOf(keys).count
    ensures forall p :: p in Items(TallyOf(keys)) ==> p.0 in keys && p.1 == Occurrences(keys, p.0)
    ensures forall k :: k in keys ==> (k, Occurrences(keys, k)) in Items(TallyOf(keys))
  {
    TallySpec(keys);
    var c := TallyOf(keys);
    forall k | k in keys ensures (k, Occurrences(keys, k)) in Items(c) {
      var i :| 0 <= i < |c.order| && c.order[i] == k;
      assert Items(c)[i] == (k, Occurrences(keys, k));
    }
  }

  /** Counting `keys` and listing by count gives a list in non-increasing
      count order, holding each key seen exactly once with its number of
      occurrences, whose counts add up to the number of keys. */
  lemma MostCommonSpec(keys: seq<string>)
    ensures forall k :: k in TallyOf(keys).order ==> k in TallyOf(keys).count
    ensures var r := MostCommon(TallyOf(keys));
      && (forall i :: 0 < i < |r| ==> r[i - 1].1 >= r[i].1)
      && SumCounts(r) == |keys|
      && (forall p :: p in r ==> p.0 in keys && p.1 == Occurrences(keys, p.0))
      && (forall k :: k in keys ==> (k, Occurrences(keys, k)) in r)
      && |r| == |TallyOf(keys).order|
  {
    TallyTotal(keys);
    ItemsMembers(keys);
    var c := TallyOf(keys);
    var r := MostCommon(c);
    ByCountDescTotal();
    SortBySpec(Items(c), ByCountDesc());
    SumCountsSort(Items(c));
    forall p | p in r ensures p.0 in keys && p.1 == Occurrences(keys, p.0) {
      assert p in multiset(Items(c));
    }
    forall k | k in keys ensures (k, Occurrences(keys, k)) in r {
      assert (k, Occurrences(keys, k)) in multiset(r);
    }
  }
}
