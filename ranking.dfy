/** The ordering the code obtains from `Array.prototype.sort` with a
    comparator. Each comparator in the site compares a lexicographic key
    of three integers, so sorting by the comparator is sorting by that key;
    `sort` is stable (ECMA-262 requires it since 2019), so elements whose
    keys tie keep their input order. */
module Ranking {

  datatype Rank = Rank(primary: int, secondary: int, tertiary: int)

  /** Lexicographic order on ranks: a total preorder. */
  predicate RankLe(a: Rank, b: Rank) {
    a.primary < b.primary
    || (a.primary == b.primary
        && (a.secondary < b.secondary || (a.secondary == b.secondary && a.tertiary <= b.tertiary)))
  }

  /** Inserts `x` before the first element that does not rank strictly below it. */
  function Insert<T>(x: T, s: seq<T>, rank: T -> Rank): (r: seq<T>)
    ensures |r| == |s| + 1
  {
    if s == [] then [x]
    else if RankLe(rank(x), rank(s[0])) then [x] + s
    else [s[0]] + Insert(x, s[1..], rank)
  }

  /** Stable insertion sort by rank. */
  function SortBy<T>(s: seq<T>, rank: T -> Rank): (r: seq<T>)
    ensures |r| == |s|
  {
    if s == [] then [] else Insert(s[0], SortBy(s[1..], rank), rank)
  }

  /** Inserting adds exactly the inserted element. */
  lemma {:induction false} InsertPermutes<T>(x: T, s: seq<T>, rank: T -> Rank)
    ensures multiset(Insert(x, s, rank)) == multiset(s) + multiset{x}
  {
    if s != [] && !RankLe(rank(x), rank(s[0])) {
      InsertPermutes(x, s[1..], rank);
      assert s == [s[0]] + s[1..];
    }
  }

  /** Sorting is a permutation. */
  lemma {:induction false} SortByPermutes<T>(s: seq<T>, rank: T -> Rank)
    ensures multiset(SortBy(s, rank)) == multiset(s)
  {
    if s != [] {
      SortByPermutes(s[1..], rank);
      InsertPermutes(s[0], SortBy(s[1..], rank), rank);
      assert s == [s[0]] + s[1..];
    }
  }

  ghost predicate SortedBy<T>(s: seq<T>, rank: T -> Rank) {
    forall i, j :: 0 <= i < j < |s| ==> RankLe(rank(s[i]), rank(s[j]))
  }

  /** A rank below `x` and below every element of `s` is below every
      element of the insertion. */
  lemma {:induction false} InsertLowerBound<T>(x: T, s: seq<T>, b: Rank, rank: T -> Rank)
    requires RankLe(b, rank(x))
    requires forall k :: 0 <= k < |s| ==> RankLe(b, rank(s[k]))
    ensures forall k :: 0 <= k < |Insert(x, s, rank)| ==> RankLe(b, rank(Insert(x, s, rank)[k]))
  {
    if s != [] && !RankLe(rank(x), rank(s[0])) {
      InsertLowerBound(x, s[1..], b, rank);
      var r := Insert(x, s, rank);
      assert r == [s[0]] + Insert(x, s[1..], rank);
      forall k | 0 <= k < |r| ensures RankLe(b, rank(r[k])) {
        if k > 0 {
          assert r[k] == Insert(x, s[1..], rank)[k - 1];
        }
      }
    }
  }

  /** An element below everything in an ordered sequence can go in front. */
  lemma ConsSorted<T>(h: T, tail: seq<T>, rank: T -> Rank)
    requires SortedBy(tail, rank)
    requires forall k :: 0 <= k < |tail| ==> RankLe(rank(h), rank(tail[k]))
    ensures SortedBy([h] + tail, rank)
  {
    var r := [h] + tail;
    forall i, j | 0 <= i < j < |r| ensures RankLe(rank(r[i]), rank(r[j])) {
      assert r[j] == tail[j - 1];
      if i > 0 {
        assert r[i] == tail[i - 1];
      }
    }
  }

  lemma {:induction false} InsertSorted<T>(x: T, s: seq<T>, rank: T -> Rank)
    requires SortedBy(s, rank)
    ensures SortedBy(Insert(x, s, rank), rank)
  {
    if s == [] {
    } else if RankLe(rank(x), rank(s[0])) {
      forall k | 0 <= k < |s| ensures RankLe(rank(x), rank(s[k])) {
        assert k == 0 || RankLe(rank(s[0]), rank(s[k]));
      }
      ConsSorted(x, s, rank);
    } else {
      InsertSorted(x, s[1..], rank);
      assert forall k :: 0 <= k < |s[1..]| ==> s[1..][k] == s[k + 1];
      InsertLowerBound(x, s[1..], rank(s[0]), rank);
      ConsSorted(s[0], Insert(x, s[1..], rank), rank);
    }
  }

  /** The result of `SortBy` is ordered by rank. */
  lemma {:induction false} SortBySorted<T>(s: seq<T>, rank: T -> Rank)
    ensures SortedBy(SortBy(s, rank), rank)
  {
    if s != [] {
      SortBySorted(s[1..], rank);
      InsertSorted(s[0], SortBy(s[1..], rank), rank);
    }
  }

  /** A prefix of an ordered sequence is ordered. */
  lemma SortedPrefix<T>(s: seq<T>, n: nat, rank: T -> Rank)
    requires SortedBy(s, rank) && n <= |s|
    ensures SortedBy(s[..n], rank)
  {
  }

  /** An element of `s` that the first `n` of the sorted copy leave out
      ranks at or after each of them. */
  lemma LeftOutRanksAfter<T>(s: seq<T>, rank: T -> Rank, n: nat, x: T, i: nat)
    requires n <= |s| && x in s && x !in SortBy(s, rank)[..n] && i < n
    ensures RankLe(rank(SortBy(s, rank)[i]), rank(x))
  {
    var t := SortBy(s, rank);
    SortByPermutes(s, rank);
    assert x in multiset(s);
    assert x in t;
    var j :| 0 <= j < |t| && t[j] == x;
    assert forall m :: 0 <= m < n ==> t[..n][m] == t[m];
    assert j >= n;
    SortBySorted(s, rank);
  }

  /** A prefix holds no element more often than the whole sequence. */
  lemma PrefixWithin<T>(t: seq<T>, n: nat)
    requires n <= |t|
    ensures multiset(t[..n]) <= multiset(t)
  {
    assert t == t[..n] + t[n..];
  }

  /** The first `n` of the sorted copy are the best `n` of `s`: they come
      from `s`, none more often than it occurs there, and each element of `s`
      they leave out ranks at or after every one of them. */
  lemma SortedHeadBest<T>(s: seq<T>, rank: T -> Rank, n: nat)
    requires n <= |s|
    ensures multiset(SortBy(s, rank)[..n]) <= multiset(s)
    ensures forall x, i :: x in s && x !in SortBy(s, rank)[..n] && 0 <= i < n ==>
              RankLe(rank(SortBy(s, rank)[i]), rank(x))
  {
    var t := SortBy(s, rank);
    SortByPermutes(s, rank);
    PrefixWithin(t, n);
    forall x, i | x in s && x !in t[..n] && 0 <= i < n ensures RankLe(rank(t[i]), rank(x)) {
      LeftOutRanksAfter(s, rank, n, x, i);
    }
  }

  /** The elements of `s` whose rank is exactly `k`, in order. */
  function WithRank<T>(s: seq<T>, rank: T -> Rank, k: Rank): (r: seq<T>)
    ensures |r| <= |s|
  {
    if s == [] then [] else (if rank(s[0]) == k then [s[0]] else []) + WithRank(s[1..], rank, k)
  }

  lemma {:induction false} InsertStable<T>(x: T, s: seq<T>, rank: T -> Rank, k: Rank)
    ensures WithRank(Insert(x, s, rank), rank, k)
         == (if rank(x) == k then [x] else []) + WithRank(s, rank, k)
  {
    if s == [] {
    } else if RankLe(rank(x), rank(s[0])) {
      assert ([x] + s)[1..] == s;
    } else {
      var r := Insert(x, s, rank);
      assert r[0] == s[0] && r[1..] == Insert(x, s[1..], rank);
      InsertStable(x, s[1..], rank, k);
      assert !(rank(s[0]) == k && rank(x) == k);
    }
  }

  /** Stability: among elements of equal rank the input order is kept. */
  lemma {:induction false} SortByStable<T>(s: seq<T>, rank: T -> Rank, k: Rank)
    ensures WithRank(SortBy(s, rank), rank, k) == WithRank(s, rank, k)
  {
    if s != [] {
      SortByStable(s[1..], rank, k);
      InsertStable(s[0], SortBy(s[1..], rank), rank, k);
    }
  }
}
