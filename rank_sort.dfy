/**
 * Ranked items and the sort `finalize` applies to them in
 * FastAutoAugment/nas/cell.py: `list.sort(key=rank, reverse=True)`, which
 * orders by descending rank and, being a stable sort, keeps items of equal
 * rank in their original order.
 */
module RankSort {

  /** An item with the rank its edge reported. */
  datatype Ranked<E> = Ranked(item: E, rank: real)

  ghost predicate SortedDesc<E>(s: seq<Ranked<E>>)
  {
    forall i, j :: 0 <= i < j < |s| ==> s[i].rank >= s[j].rank
  }

  /** Put `x` in front of the first element whose rank is not above its own. */
  function Insert<E>(x: Ranked<E>, t: seq<Ranked<E>>): (r: seq<Ranked<E>>)
    requires SortedDesc(t)
    ensures SortedDesc(r)
    ensures multiset(r) == multiset(t) + multiset{x}
    ensures |r| == |t| + 1
    ensures r[0] == x || (t != [] && r[0] == t[0])
  {
    if t == [] || x.rank >= t[0].rank then
      [x] + t
    else
      var rest := Insert(x, t[1..]);
      assert t == [t[0]] + t[1..];
      assert t[0].rank >= rest[0].rank;
      [t[0]] + rest
  }

  /** Stable sort by descending rank. */
  function SortDesc<E>(s: seq<Ranked<E>>): (r: seq<Ranked<E>>)
    ensures SortedDesc(r)
    ensures multiset(r) == multiset(s)
    ensures |r| == |s|
  {
    if s == [] then []
    else
      assert s == [s[0]] + s[1..];
      Insert(s[0], SortDesc(s[1..]))
  }

  /** The items of rank `v`, in order. */
  function WithRank<E>(s: seq<Ranked<E>>, v: real): seq<Ranked<E>>
  {
    if s == [] then []
    else if s[0].rank == v then [s[0]] + WithRank(s[1..], v)
    else WithRank(s[1..], v)
  }

  lemma {:induction false} WithRankInsert<E>(x: Ranked<E>, t: seq<Ranked<E>>, v: real)
    requires SortedDesc(t)
    ensures WithRank(Insert(x, t), v) == (if x.rank == v then [x] else []) + WithRank(t, v)
  {
    if t == [] || x.rank >= t[0].rank {
      assert Insert(x, t) == [x] + t;
      assert ([x] + t)[1..] == t;
    } else {
      var rest := Insert(x, t[1..]);
      assert Insert(x, t) == [t[0]] + rest;
      assert ([t[0]] + rest)[1..] == rest;
      WithRankInsert(x, t[1..], v);
      if t[0].rank == v {
        // x.rank < t[0].rank == v, so x is not of rank v
        assert WithRank(t, v) == [t[0]] + WithRank(t[1..], v);
      }
    }
  }

  /** The sort is stable: the items of every rank keep their relative order. */
  lemma {:induction false} SortStable<E>(s: seq<Ranked<E>>, v: real)
    ensures WithRank(SortDesc(s), v) == WithRank(s, v)
  {
    if s != [] {
      SortStable(s[1..], v);
      WithRankInsert(s[0], SortDesc(s[1..]), v);
    }
  }

  lemma {:induction false} WithRankAppend<E>(a: seq<Ranked<E>>, b: seq<Ranked<E>>, v: real)
    ensures WithRank(a + b, v) == WithRank(a, v) + WithRank(b, v)
  {
    if a == [] {
      assert a + b == b;
    } else {
      assert (a + b)[1..] == a[1..] + b;
      WithRankAppend(a[1..], b, v);
    }
  }

  /** The items of a prefix are a prefix of the items of the whole. */
  lemma WithRankPrefix<E>(s: seq<Ranked<E>>, m: nat, v: real)
    requires m <= |s|
    ensures WithRank(s[..m], v) <= WithRank(s, v)
  {
    assert s == s[..m] + s[m..];
    WithRankAppend(s[..m], s[m..], v);
  }

  /** In a descending sequence, nothing after position `m` outranks anything before it. */
  lemma PrefixDominates<E>(sorted: seq<Ranked<E>>, m: nat)
    requires SortedDesc(sorted) && m <= |sorted|
    ensures forall a, b :: a in sorted[..m] && b in multiset(sorted[m..]) ==> a.rank >= b.rank
  {
    forall a, b | a in sorted[..m] && b in multiset(sorted[m..])
      ensures a.rank >= b.rank
    {
      var i :| 0 <= i < m && sorted[..m][i] == a;
      var j :| 0 <= j < |sorted| - m && sorted[m..][j] == b;
      assert sorted[i] == a && sorted[m + j] == b;
    }
  }

  /** What a prefix leaves out is exactly the rest. */
  lemma PrefixRest<E>(s: seq<Ranked<E>>, m: nat)
    requires m <= |s|
    ensures multiset(s) - multiset(s[..m]) == multiset(s[m..])
    ensures multiset(s[..m]) <= multiset(s)
  {
    assert s == s[..m] + s[m..];
  }

  /** The `m` best items: `sort(key=rank, reverse=True)` followed by `[:m]`. */
  function TopRanked<E>(s: seq<Ranked<E>>, m: nat): (r: seq<Ranked<E>>)
    requires m <= |s|
    ensures |r| == m
  {
    SortDesc(s)[..m]
  }

  /** The `m` best items are in descending rank order and drawn from `s`. */
  lemma TopRankedSorted<E>(s: seq<Ranked<E>>, m: nat)
    requires m <= |s|
    ensures SortedDesc(TopRanked(s, m))
    ensures multiset(TopRanked(s, m)) <= multiset(s)
  {
    PrefixRest(SortDesc(s), m);
  }

  /** No item left out outranks one of the `m` best. */
  lemma TopRankedDominates<E>(s: seq<Ranked<E>>, m: nat)
    requires m <= |s|
    ensures forall a, b :: a in TopRanked(s, m) && b in multiset(s) - multiset(TopRanked(s, m)) ==>
      a.rank >= b.rank
  {
    var sorted := SortDesc(s);
    PrefixRest(sorted, m);
    PrefixDominates(sorted, m);
  }

  /** Among items of equal rank, the `m` best are the earliest ones. */
  lemma TopRankedStable<E>(s: seq<Ranked<E>>, m: nat, v: real)
    requires m <= |s|
    ensures WithRank(TopRanked(s, m), v) <= WithRank(s, v)
  {
    WithRankPrefix(SortDesc(s), m, v);
    SortStable(s, v);
  }
}
