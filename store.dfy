/** The parts of a Redis server the core relies on, as values: sorted sets,
    lists with Redis index normalisation, hash counters and glob key patterns. */
module Store {
  import opened Wrappers
  import opened Text

  /** One member of a sorted set with its score. */
  datatype ZEntry<M> = ZEntry(member: M, score: int)

  /** A sorted set, listed from rank 0 (lowest score) upwards. */
  type ZSet<M> = seq<ZEntry<M>>

  predicate Ranked<M>(z: ZSet<M>) {
    forall i, j :: 0 <= i < j < |z| ==> z[i].score <= z[j].score
  }

  predicate DistinctMembers<M(==)>(z: ZSet<M>) {
    forall i, j :: 0 <= i < j < |z| ==> z[i].member != z[j].member
  }

  predicate ValidZSet<M(==)>(z: ZSet<M>) { Ranked(z) && DistinctMembers(z) }

  function Members<M(==,!new)>(z: ZSet<M>): (ms: set<M>)
    ensures forall m :: m in ms <==> exists i :: 0 <= i < |z| && z[i].member == m
  {
    set i | 0 <= i < |z| :: z[i].member
  }

  /** The entries of `z` other than `m`, in the same order. */
  function Without<M(==,!new)>(z: ZSet<M>, m: M): (r: ZSet<M>)
    ensures forall e :: e in r <==> e in z && e.member != m
    ensures |r| <= |z|
  {
    if z == [] then []
    else if z[0].member == m then Without(z[1..], m)
    else [z[0]] + Without(z[1..], m)
  }

  /** Dropping a member keeps a well-formed sorted set well formed. */
  lemma {:induction false} WithoutValid<M(!new)>(z: ZSet<M>, m: M)
    requires ValidZSet(z)
    ensures ValidZSet(Without(z, m))
  {
    if z != [] {
      WithoutValid(z[1..], m);
      if z[0].member != m {
        var rest := Without(z[1..], m);
        var r := [z[0]] + rest;
        forall i, j | 0 <= i < j < |r| ensures r[i].score <= r[j].score && r[i].member != r[j].member {
          if i == 0 {
            assert r[j] in z[1..];
            var k :| 0 <= k < |z[1..]| && z[1..][k] == r[j];
            assert z[k + 1] == r[j];
          }
        }
      }
    }
  }

  /** The number of leading entries whose score is at most `score`. */
  function InsertPos<M>(z: ZSet<M>, score: int): (p: nat)
    ensures p <= |z|
    ensures forall i :: 0 <= i < p ==> z[i].score <= score
    ensures p == |z| || score < z[p].score
  {
    if z == [] || score < z[0].score then 0 else 1 + InsertPos(z[1..], score)
  }

  /** Places `e` after every leading entry whose score is at most its own. */
  function InsertByScore<M>(z: ZSet<M>, e: ZEntry<M>): (r: ZSet<M>)
    ensures |r| == |z| + 1
    ensures r == z[..InsertPos(z, e.score)] + [e] + z[InsertPos(z, e.score)..]
    ensures Ranked(z) ==> Ranked(r)
  {
    var p := InsertPos(z, e.score);
    var r := z[..p] + [e] + z[p..];
    assert Ranked(z) ==> Ranked(r) by {
      if Ranked(z) {
        forall i, j | 0 <= i < j < |r| ensures r[i].score <= r[j].score {
          if j < p {
            assert r[i] == z[i] && r[j] == z[j];
          } else if j == p {
            assert r[i] == z[i];
          } else if i < p {
            assert r[i] == z[i] && r[j] == z[j - 1];
          } else if i == p {
            assert r[j] == z[j - 1];
          } else {
            assert r[i] == z[i - 1] && r[j] == z[j - 1];
          }
        }
      }
    }
    r
  }

  /** Redis `ZADD key score member`: a member already present takes the new
      score; every other entry is kept. */
  function ZAdd<M(==,!new)>(z: ZSet<M>, m: M, score: int): (r: ZSet<M>)
    ensures |r| <= |z| + 1
  {
    InsertByScore(Without(z, m), ZEntry(m, score))
  }

  /** After ZADD the set holds the new entry and the other members' entries, and nothing else. */
  lemma ZAddContents<M(!new)>(z: ZSet<M>, m: M, score: int)
    ensures forall e :: e in ZAdd(z, m, score) <==> e == ZEntry(m, score) || (e in z && e.member != m)
  {
    InsertContents(Without(z, m), ZEntry(m, score));
  }

  /** ZADD of a member that is not present and scores below every entry puts
      it at rank 0 in front of the unchanged set. */
  lemma ZAddBelowAll<M(!new)>(z: ZSet<M>, m: M, score: int)
    requires forall e :: e in z ==> e.member != m && score < e.score
    ensures ZAdd(z, m, score) == [ZEntry(m, score)] + z
  {
    WithoutAbsent(z, m);
    if z != [] {
      assert z[0] in z;
    }
  }

  /** Dropping a member that is not present changes nothing. */
  lemma {:induction false} WithoutAbsent<M(!new)>(z: ZSet<M>, m: M)
    requires forall e :: e in z ==> e.member != m
    ensures Without(z, m) == z
  {
    if z != [] {
      assert z[0] in z;
      assert forall e :: e in z[1..] ==> e in z;
      WithoutAbsent(z[1..], m);
      assert [z[0]] + z[1..] == z;
    }
  }

  lemma InsertContents<M>(z: ZSet<M>, e: ZEntry<M>)
    ensures forall x :: x in InsertByScore(z, e) <==> x in z || x == e
  {
    var p := InsertPos(z, e.score);
    assert z == z[..p] + z[p..];
  }

  /** ZADD keeps a well-formed sorted set well formed: ranked by score, one entry per member. */
  lemma ZAddValid<M(!new)>(z: ZSet<M>, m: M, score: int)
    requires ValidZSet(z)
    ensures ValidZSet(ZAdd(z, m, score))
  {
    var rest := Without(z, m);
    WithoutValid(z, m);
    var p := InsertPos(rest, score);
    InsertKeepsDistinct(rest, ZEntry(m, score), p);
  }

  /** Inserting an entry for a member that is not yet present keeps members distinct. */
  lemma InsertKeepsDistinct<M>(z: ZSet<M>, e: ZEntry<M>, p: int)
    requires 0 <= p <= |z|
    ensures DistinctMembers(z) && (forall x :: x in z ==> x.member != e.member) ==>
      DistinctMembers(z[..p] + [e] + z[p..])
  {
    var r := z[..p] + [e] + z[p..];
    if DistinctMembers(z) && (forall x :: x in z ==> x.member != e.member) {
      forall i, j | 0 <= i < j < |r| ensures r[i].member != r[j].member {
        var i' := if i < p then i else i - 1;
        var j' := if j < p then j else j - 1;
        if i != p && j != p {
          assert r[i] == z[i'] && r[j] == z[j'] && i' < j';
        } else if i == p {
          assert r[j] == z[j'] && r[j] in z;
        } else {
          assert r[i] == z[i'] && r[i] in z;
        }
      }
    }
  }

  /** Redis's normalisation of an inclusive index range `start..stop` against a
      length `n`, shared by LRANGE, LTRIM, ZREVRANGE and ZREMRANGEBYRANK; the
      answer is a half-open range `lo..hi`. */
  function RedisRange(n: nat, start: int, stop: int): (r: (nat, nat))
    ensures r.0 <= r.1 <= n
  {
    var s := if start < 0 then (if start + n < 0 then 0 else start + n) else start;
    var e := if stop < 0 then stop + n else if stop >= n then n - 1 else stop;
    if s > e || s >= n then (0, 0) else (s, e + 1)
  }

  /** Redis `ZREMRANGEBYRANK key start stop`. */
  function ZRemRangeByRank<M>(z: ZSet<M>, start: int, stop: int): ZSet<M> {
    var (lo, hi) := RedisRange(|z|, start, stop);
    z[..lo] + z[hi..]
  }

  /** What `ZREMRANGEBYRANK key 0 -(k+1)` leaves: the `k` highest-ranked entries. */
  function KeepTop<M>(z: ZSet<M>, k: nat): (r: ZSet<M>)
    ensures |r| <= k && |r| <= |z|
    ensures |z| <= k ==> r == z
    ensures |z| > k ==> r == z[|z| - k..]
  {
    ZRemRangeByRank(z, 0, -(k + 1))
  }

  /** Trimming keeps the cap, and in a ranked set every evicted entry scores at
      most as high as every entry that stays. */
  lemma KeepTopEvictsLowest<M>(z: ZSet<M>, k: nat)
    requires Ranked(z)
    ensures |KeepTop(z, k)| == if |z| <= k then |z| else k
    ensures forall e, f :: e in z && e !in KeepTop(z, k) && f in KeepTop(z, k) ==> e.score <= f.score
  {
    if |z| > k {
      var r := KeepTop(z, k);
      forall e, f | e in z && e !in r && f in r ensures e.score <= f.score {
        var i :| 0 <= i < |z| && z[i] == e;
        var j :| 0 <= j < |r| && r[j] == f;
        KeptTail(z, k, i);
        EvictedBelow(z, k, i, j);
      }
    }
  }

  /** In a ranked set, an entry below the last `k` scores at most as high as
      each of them. */
  lemma EvictedBelow<M>(z: ZSet<M>, k: nat, i: nat, j: nat)
    requires Ranked(z) && |z| > k && i < |z| - k && j < k
    ensures z[i].score <= KeepTop(z, k)[j].score
  {
    assert KeepTop(z, k)[j] == z[|z| - k + j];
  }

  /** Trimming keeps the last `k` entries. */
  lemma KeptTail<M>(z: ZSet<M>, k: nat, i: nat)
    requires |z| > k && i < |z|
    ensures |z| - k <= i ==> z[i] in KeepTop(z, k)
  {
    if |z| - k <= i {
      assert KeepTop(z, k)[i - (|z| - k)] == z[i];
    }
  }
  // ---------------------------------------------------------------- pipelines of ZADD

  /** One `ZADD` of an entry, followed by `ZREMRANGEBYRANK key 0 -(cap+1)` when
      the key has a cap. */
  datatype Put = Put(key: string, cap: Option<nat>)

  /** The sorted sets of a database, by key. */
  type Sets<M> = map<string, ZSet<M>>

  /** A missing key reads as the empty set. */
  function SetAt<M>(sets: Sets<M>, key: string): ZSet<M> {
    if key in sets then sets[key] else []
  }

  /** The set a group leaves under its key. */
  function PutSet<M(==,!new)>(z: ZSet<M>, cap: Option<nat>, m: M, score: int): ZSet<M> {
    if cap.Some? then KeepTop(ZAdd(z, m, score), cap.value) else ZAdd(z, m, score)
  }

  /** One group: add the member, then trim to the cap when there is one. */
  function PutOne<M(==,!new)>(sets: Sets<M>, p: Put, m: M, score: int): (r: Sets<M>)
    ensures r.Keys == sets.Keys + {p.key}
    ensures forall k :: k in sets && k != p.key ==> r[k] == sets[k]
  {
    sets[p.key := PutSet(SetAt(sets, p.key), p.cap, m, score)]
  }

  /** The groups applied one after another, all with the same member and score. */
  function ApplyPuts<M(==,!new)>(sets: Sets<M>, puts: seq<Put>, m: M, score: int): (r: Sets<M>)
    ensures sets.Keys <= r.Keys
    ensures forall j :: 0 <= j < |puts| ==> puts[j].key in r
    decreases |puts|
  {
    if puts == [] then sets
    else
      var init := puts[..|puts| - 1];
      var before := ApplyPuts(sets, init, m, score);
      var r := PutOne(before, puts[|puts| - 1], m, score);
      PutKeysKept(init, puts, before.Keys, r.Keys);
      r
  }

  /** The keys named by `puts` stay present once the last one is added. */
  lemma PutKeysKept(init: seq<Put>, puts: seq<Put>, before: set<string>, after: set<string>)
    requires |puts| >= 1 && init == puts[..|puts| - 1] && after == before + {puts[|puts| - 1].key}
    requires forall j :: 0 <= j < |init| ==> init[j].key in before
    ensures forall j :: 0 <= j < |puts| ==> puts[j].key in after
  {
    forall j | 0 <= j < |puts| - 1 ensures puts[j].key in after {
      assert init[j] == puts[j];
    }
  }

  predicate AllValid<M(==)>(sets: Sets<M>) {
    forall k :: k in sets ==> ValidZSet(sets[k])
  }

  /** One capped group keeps the set well formed and within its cap, never
      invents an entry, and either keeps the new entry or is full of entries
      scoring at least as high as it. */
  lemma CappedPut<M(!new)>(z: ZSet<M>, m: M, score: int, cap: nat)
    requires ValidZSet(z) && cap >= 1
    ensures var r := KeepTop(ZAdd(z, m, score), cap);
      && ValidZSet(r)
      && |r| <= cap
      && (forall e :: e in r ==> e == ZEntry(m, score) || e in z)
      && (ZEntry(m, score) in r || (|r| == cap && forall e :: e in r ==> e.score >= score))
  {
    var a := ZAdd(z, m, score);
    ZAddValid(z, m, score);
    ZAddContents(z, m, score);
    KeepTopEvictsLowest(a, cap);
    KeepTopKeeps(a, cap);
  }

  /** Trimming a well-formed set keeps it well formed and adds nothing. */
  lemma KeepTopKeeps<M>(z: ZSet<M>, k: nat)
    requires ValidZSet(z)
    ensures ValidZSet(KeepTop(z, k))
    ensures forall e :: e in KeepTop(z, k) ==> e in z
  {
    var r := KeepTop(z, k);
    if |z| > k {
      assert forall i :: 0 <= i < |r| ==> r[i] == z[i + |z| - k];
    }
  }

  /** A set is left as the last group that names it made it. */
  lemma {:induction false} LastPutDecides<M(!new)>(sets: Sets<M>, puts: seq<Put>, m: M, score: int, k: nat)
    requires k < |puts|
    requires forall j :: k < j < |puts| ==> puts[j].key != puts[k].key
    ensures ApplyPuts(sets, puts, m, score)[puts[k].key]
      == PutOne(ApplyPuts(sets, puts[..k], m, score), puts[k], m, score)[puts[k].key]
    decreases |puts|
  {
    var init := puts[..|puts| - 1];
    if k < |puts| - 1 {
      assert init[..k] == puts[..k];
      assert forall j :: k < j < |init| ==> init[j] == puts[j];
      LastPutDecides(sets, init, m, score, k);
    } else {
      assert init == puts[..k];
    }
  }

  /** Groups with caps of at least one keep every set well formed. */
  lemma {:induction false} ApplyPutsValid<M(!new)>(sets: Sets<M>, puts: seq<Put>, m: M, score: int)
    requires AllValid(sets)
    requires forall j :: 0 <= j < |puts| ==> puts[j].cap != Some(0)
    ensures AllValid(ApplyPuts(sets, puts, m, score))
    decreases |puts|
  {
    if puts != [] {
      var init := puts[..|puts| - 1];
      var before := ApplyPuts(sets, init, m, score);
      ApplyPutsValid(sets, init, m, score);
      PutOneValid(before, puts[|puts| - 1], m, score);
    }
  }

  /** One group with a cap of at least one keeps every set well formed. */
  lemma PutOneValid<M(!new)>(sets: Sets<M>, p: Put, m: M, score: int)
    requires AllValid(sets) && p.cap != Some(0)
    ensures AllValid(PutOne(sets, p, m, score))
  {
    var z := SetAt(sets, p.key);
    ZAddValid(z, m, score);
    if p.cap.Some? {
      CappedPut(z, m, score, p.cap.value);
    }
  }

  /** Applying one more group after a run. */
  lemma ApplyPutsSnoc<M(!new)>(sets: Sets<M>, ps: seq<Put>, p: Put, m: M, score: int)
    ensures ApplyPuts(sets, ps + [p], m, score) == PutOne(ApplyPuts(sets, ps, m, score), p, m, score)
  {
    assert (ps + [p])[..|ps|] == ps;
  }

  /** Two groups, one after the other. */
  lemma ApplyPutsPair<M(!new)>(sets: Sets<M>, a: Put, b: Put, m: M, score: int)
    ensures ApplyPuts(sets, [a, b], m, score) == PutOne(PutOne(sets, a, m, score), b, m, score)
  {
    ApplyPutsSingle(sets, a, m, score);
    ApplyPutsSnoc(sets, [a], b, m, score);
    assert [a] + [b] == [a, b];
  }

  /** One group alone. */
  lemma ApplyPutsSingle<M(!new)>(sets: Sets<M>, a: Put, m: M, score: int)
    ensures ApplyPuts(sets, [a], m, score) == PutOne(sets, a, m, score)
  {
    ApplyPutsSnoc(sets, [], a, m, score);
    assert [] + [a] == [a];
  }

  /** Three groups, one after another. */
  lemma ApplyPutsTriple<M(!new)>(sets: Sets<M>, a: Put, b: Put, c: Put, m: M, score: int)
    ensures ApplyPuts(sets, [a, b, c], m, score)
      == PutOne(PutOne(PutOne(sets, a, m, score), b, m, score), c, m, score)
  {
    ApplyPutsPair(sets, a, b, m, score);
    ApplyPutsSnoc(sets, [a, b], c, m, score);
    assert [a, b] + [c] == [a, b, c];
  }

  /** Applying two runs of groups is applying their concatenation. */
  lemma {:induction false} ApplyPutsAppend<M(!new)>(sets: Sets<M>, a: seq<Put>, b: seq<Put>, m: M, score: int)
    ensures ApplyPuts(sets, a + b, m, score) == ApplyPuts(ApplyPuts(sets, a, m, score), b, m, score)
    decreases |b|
  {
    if b == [] {
      assert a + b == a;
    } else {
      var init := b[..|b| - 1];
      assert (a + b)[..|a + b| - 1] == a + init;
      ApplyPutsAppend(sets, a, init, m, score);
    }
  }

  /** A key no group names keeps its set. */
  lemma {:induction false} UntouchedKey<M(!new)>(sets: Sets<M>, puts: seq<Put>, m: M, score: int, key: string)
    requires forall j :: 0 <= j < |puts| ==> puts[j].key != key
    ensures SetAt(ApplyPuts(sets, puts, m, score), key) == SetAt(sets, key)
    decreases |puts|
  {
    if puts != [] {
      var init := puts[..|puts| - 1];
      assert forall j :: 0 <= j < |init| ==> init[j] == puts[j];
      UntouchedKey(sets, init, m, score, key);
    }
  }

  /** After a capped group that no later group repeats, its set holds at most the cap. */
  lemma CapHolds<M(!new)>(sets: Sets<M>, puts: seq<Put>, m: M, score: int, k: nat)
    requires k < |puts| && puts[k].cap.Some?
    requires forall j :: k < j < |puts| ==> puts[j].key != puts[k].key
    ensures |ApplyPuts(sets, puts, m, score)[puts[k].key]| <= puts[k].cap.value
  {
    LastPutDecides(sets, puts, m, score, k);
  }


  /** A full capped set that the first group trims right back, and that only
      the last, uncapped group names again, ends one over the cap when the new
      entry scores below all of it. */
  lemma EvictedThenReadded<M(!new)>(sets: Sets<M>, puts: seq<Put>, m: M, score: int, key: string, cap: nat)
    requires |puts| >= 2 && puts[0] == Put(key, Some(cap)) && puts[|puts| - 1] == Put(key, None)
    requires forall j :: 0 < j < |puts| - 1 ==> puts[j].key != key
    requires |SetAt(sets, key)| == cap
    requires forall e :: e in SetAt(sets, key) ==> e.member != m && score < e.score
    ensures key in ApplyPuts(sets, puts, m, score)
    ensures |ApplyPuts(sets, puts, m, score)[key]| == cap + 1
  {
    var z := SetAt(sets, key);
    var n := |puts| - 1;
    var first := puts[..n];
    LastPutDecides(sets, first, m, score, 0);
    assert first[..0] == [];
    ZAddBelowAll(z, m, score);
    assert KeepTop([ZEntry(m, score)] + z, cap) == z;
    LastPutDecides(sets, puts, m, score, n);
  }

  /** The members of a ranked set from the highest score down. */
  function Reverse<T>(s: seq<T>): (r: seq<T>)
    ensures |r| == |s| && forall i :: 0 <= i < |s| ==> r[i] == s[|s| - 1 - i]
  {
    seq(|s|, i requires 0 <= i < |s| => s[|s| - 1 - i])
  }

  function MembersOf<M>(z: ZSet<M>): (ms: seq<M>)
    ensures |ms| == |z| && forall i :: 0 <= i < |z| ==> ms[i] == z[i].member
  {
    seq(|z|, i requires 0 <= i < |z| => z[i].member)
  }

  /** Redis `ZREVRANGE key start stop`. */
  function ZRevRange<M>(z: ZSet<M>, start: int, stop: int): seq<M> {
    var rev := Reverse(z);
    var (lo, hi) := RedisRange(|rev|, start, stop);
    MembersOf(rev[lo..hi])
  }

  /** The entries of `z` whose score lies in `min..max` (`None` is `+inf`). */
  function InScore<M>(z: ZSet<M>, min: int, max: Option<int>): (r: ZSet<M>)
    ensures forall e :: e in r ==> e in z && min <= e.score && (max.None? || e.score <= max.value)
    ensures |r| <= |z|
  {
    if z == [] then []
    else
      var rest := InScore(z[1..], min, max);
      if min <= z[0].score && (max.None? || z[0].score <= max.value) then [z[0]] + rest else rest
  }

  /** Redis `ZREVRANGEBYSCORE key max min LIMIT 0 count`: matching members from the
      highest score down; a negative count means no limit. */
  function ZRevRangeByScore<M>(z: ZSet<M>, max: Option<int>, min: int, count: int): (ms: seq<M>)
    ensures count >= 0 ==> |ms| <= count
    ensures forall m :: m in ms ==> exists e :: e in z && e.member == m && min <= e.score && (max.None? || e.score <= max.value)
  {
    var hits := MembersOf(Reverse(InScore(z, min, max)));
    var r := if count >= 0 && count < |hits| then hits[..count] else hits;
    assert forall m :: m in r ==> m in hits;
    r
  }

  /** A score-range query that returns fewer members than its count, or has no
      count, returns every member whose entry is in range. */
  lemma ZRevRangeByScoreAll<M>(z: ZSet<M>, max: Option<int>, min: int, count: int)
    requires count < 0 || |ZRevRangeByScore(z, max, min, count)| < count
    ensures forall e :: e in z && min <= e.score && (max.None? || e.score <= max.value) ==>
      e.member in ZRevRangeByScore(z, max, min, count)
  {
    var hits := MembersOf(Reverse(InScore(z, min, max)));
    assert ZRevRangeByScore(z, max, min, count) == hits;
    forall e | e in z && min <= e.score && (max.None? || e.score <= max.value) ensures e.member in hits {
      InScoreAll(z, min, max, e);
      ReversedMember(InScore(z, min, max), e);
    }
  }

  /** Listing a set from the top keeps every member. */
  lemma ReversedMember<M>(z: ZSet<M>, e: ZEntry<M>)
    requires e in z
    ensures e.member in MembersOf(Reverse(z))
  {
    var rev := Reverse(z);
    var i :| 0 <= i < |z| && z[i] == e;
    assert rev[|z| - 1 - i] == e;
    assert MembersOf(rev)[|z| - 1 - i] == e.member;
  }

  /** Every entry of `z` in range is kept by `InScore`. */
  lemma {:induction false} InScoreAll<M>(z: ZSet<M>, min: int, max: Option<int>, e: ZEntry<M>)
    requires e in z && min <= e.score && (max.None? || e.score <= max.value)
    ensures e in InScore(z, min, max)
  {
    if z[0] != e {
      InScoreAll(z[1..], min, max, e);
    }
  }

  /** Redis `LTRIM key start stop` (an emptied list is a deleted key; the model
      keeps it as the empty list). */
  function LTrim<T>(l: seq<T>, start: int, stop: int): seq<T> {
    var (lo, hi) := RedisRange(|l|, start, stop);
    l[lo..hi]
  }

  /** Redis `LRANGE key start stop`. */
  function LRange<T>(l: seq<T>, start: int, stop: int): seq<T> {
    var (lo, hi) := RedisRange(|l|, start, stop);
    l[lo..hi]
  }

  /** `LPUSH key v` followed by `LTRIM key 0 n-1`: the list is capped at its
      `n` newest items, the new one first. */
  function PushCapped<T>(l: seq<T>, v: T, n: nat): (r: seq<T>)
    requires n >= 1
    ensures |r| == if |l| + 1 <= n then |l| + 1 else n
    ensures r[0] == v
    ensures r == ([v] + l)[..|r|]
  {
    LTrim([v] + l, 0, n - 1)
  }

  /** `LRANGE key 0 n-1` with `n >= 1` is the first `n` items; with `n == 0` it is
      `LRANGE key 0 -1`, the whole list. */
  lemma LRangeHead<T>(l: seq<T>, n: int)
    ensures n >= 1 ==> LRange(l, 0, n - 1) == l[..if n <= |l| then n else |l|]
    ensures n == 0 ==> LRange(l, 0, n - 1) == l
  {
  }

  /** `LRANGE key offset offset+n-1` with `n >= 1` is the `n` items from
      `offset`, clipped to the list. */
  lemma LRangePage<T>(l: seq<T>, offset: nat, n: nat)
    requires n >= 1
    ensures LRange(l, offset, offset + n - 1)
      == l[(if offset <= |l| then offset else |l|)..(if offset + n <= |l| then offset + n else |l|)]
  {
  }

  /** Redis `HINCRBY key field delta` on a missing or present field. */
  function HIncrBy(h: map<string, int>, field: string, delta: int): (r: map<string, int>)
    ensures r.Keys == h.Keys + {field}
    ensures r[field] == (if field in h then h[field] else 0) + delta
    ensures forall f :: f in h && f != field ==> r[f] == h[f]
  {
    h[field := (if field in h then h[field] else 0) + delta]
  }

  /** Redis glob matching with `*` as the only wildcard. Redis also treats
      `?`, `[...]` and `\` as special. The patterns built here are fixed
      text, host, application and component names, and `*`; every other
      character is matched literally, which agrees with Redis for names free
      of `?`, `[` and `\`. */
  predicate GlobMatch(pattern: string, key: string)
    decreases |pattern| + |key|
  {
    if pattern == [] then key == []
    else if pattern[0] == '*' then GlobMatch(pattern[1..], key) || (key != [] && GlobMatch(pattern, key[1..]))
    else key != [] && key[0] == pattern[0] && GlobMatch(pattern[1..], key[1..])
  }

  lemma {:induction false} StarMatchesAll(key: string)
    ensures GlobMatch("*", key)
    decreases |key|
  {
    if key != [] {
      StarMatchesAll(key[1..]);
    }
  }

  /** A pattern `p*` matches `p` itself, and every key a longer `pq*` matches. */
  lemma PrefixPatternNarrows(p: string, q: string, key: string)
    requires '*' !in p && '*' !in q
    ensures GlobMatch(p + "*", p)
    ensures GlobMatch(p + q + "*", key) ==> GlobMatch(p + "*", key)
  {
    PrefixPattern(p, p);
    assert '*' !in p + q;
    PrefixPattern(p + q, key);
    PrefixPattern(p, key);
    StartsWithShorter(key, p, q);
  }

  /** A pattern `prefix*` whose prefix has no `*` matches exactly the keys that
      start with the prefix. */
  lemma {:induction false} PrefixPattern(prefix: string, key: string)
    requires '*' !in prefix
    ensures GlobMatch(prefix + "*", key) <==> StartsWith(key, prefix)
    decreases |prefix|
  {
    if prefix == [] {
      assert prefix + "*" == "*";
      StarMatchesAll(key);
    } else {
      assert (prefix + "*")[1..] == prefix[1..] + "*";
      if key != [] {
        PrefixPattern(prefix[1..], key[1..]);
        if StartsWith(key, prefix) {
          assert key[1..][..|prefix| - 1] == key[..|prefix|][1..];
        }
        if StartsWith(key[1..], prefix[1..]) && key[0] == prefix[0] {
          assert key[..|prefix|] == [key[0]] + key[1..][..|prefix| - 1];
        }
      }
    }
  }
}
