/**
 * Stable ordering by a two-level key, as the LINQ pipeline
 * `GroupBy(major).OrderBy(group key)` followed by `OrderBy(minor)` inside
 * each group produces it: groups come out in ascending major order and,
 * within a group, elements come out in ascending minor order, elements
 * with the same key keeping their enumeration order.
 */
module Ordering {

  /** A lexicographic sort key: first `major`, then `minor`. */
  datatype Rank = Rank(major: int, minor: int)

  predicate RankLe(a: Rank, b: Rank) {
    a.major < b.major || (a.major == b.major && a.minor <= b.minor)
  }

  /** Every element's key is at most the key of every later element. */
  ghost predicate SortedBy<T>(s: seq<T>, rank: T -> Rank) {
    forall i, j :: 0 <= i < j < |s| ==> RankLe(rank(s[i]), rank(s[j]))
  }

  /** The elements of `s` whose key is exactly `k`, in their order in `s`. */
  function WithRank<T>(s: seq<T>, rank: T -> Rank, k: Rank): seq<T> {
    if s == [] then []
    else (if rank(s[0]) == k then [s[0]] else []) + WithRank(s[1..], rank, k)
  }

  /** Puts `x` in front of the first element whose key is not below `x`'s. */
  function Insert<T>(x: T, s: seq<T>, rank: T -> Rank): seq<T> {
    if s == [] || RankLe(rank(x), rank(s[0])) then [x] + s
    else [s[0]] + Insert(x, s[1..], rank)
  }

  /** Insertion sort of `s` by `rank`. */
  function SortBy<T>(s: seq<T>, rank: T -> Rank): seq<T> {
    if s == [] then [] else Insert(s[0], SortBy(s[1..], rank), rank)
  }

  lemma {:induction false} InsertPermutes<T>(x: T, s: seq<T>, rank: T -> Rank)
    ensures multiset(Insert(x, s, rank)) == multiset([x]) + multiset(s)
  {
    if s != [] && !RankLe(rank(x), rank(s[0])) {
      InsertPermutes(x, s[1..], rank);
      assert s == [s[0]] + s[1..];
    }
  }

  lemma {:induction false} InsertSorted<T>(x: T, s: seq<T>, rank: T -> Rank)
    requires SortedBy(s, rank)
    ensures SortedBy(Insert(x, s, rank), rank)
  {
    if s != [] && !RankLe(rank(x), rank(s[0])) {
      InsertSorted(x, s[1..], rank);
      var t := Insert(x, s[1..], rank);
      InsertPermutes(x, s[1..], rank);
      forall j | 0 <= j < |t| ensures RankLe(rank(s[0]), rank(t[j])) {
        assert t[j] in multiset(t);
        assert t[j] == x || t[j] in multiset(s[1..]);
        if t[j] != x {
          var m :| 1 <= m < |s| && s[m] == t[j];
        }
      }
    }
  }

  /** The sort returns a sorted permutation of its input. */
  lemma {:induction false} SortByCorrect<T>(s: seq<T>, rank: T -> Rank)
    ensures SortedBy(SortBy(s, rank), rank)
    ensures multiset(SortBy(s, rank)) == multiset(s)
  {
    if s != [] {
      SortByCorrect(s[1..], rank);
      InsertSorted(s[0], SortBy(s[1..], rank), rank);
      InsertPermutes(s[0], SortBy(s[1..], rank), rank);
      assert s == [s[0]] + s[1..];
    }
  }

  lemma {:induction false} InsertWithRank<T>(x: T, s: seq<T>, rank: T -> Rank, k: Rank)
    ensures WithRank(Insert(x, s, rank), rank, k)
         == (if rank(x) == k then [x] else []) + WithRank(s, rank, k)
  {
    var t := Insert(x, s, rank);
    if s == [] || RankLe(rank(x), rank(s[0])) {
      assert t[0] == x && t[1..] == s;
    } else {
      InsertWithRank(x, s[1..], rank, k);
      assert t[0] == s[0] && t[1..] == Insert(x, s[1..], rank);
    }
  }

  /** The sort is stable: elements with equal keys keep their relative order. */
  lemma {:induction false} SortByStable<T>(s: seq<T>, rank: T -> Rank, k: Rank)
    ensures WithRank(SortBy(s, rank), rank, k) == WithRank(s, rank, k)
  {
    if s != [] {
      SortByStable(s[1..], rank, k);
      InsertWithRank(s[0], SortBy(s[1..], rank), rank, k);
    }
  }

  /** No two different elements of `s` share a key. */
  ghost predicate RankInjective<T>(s: seq<T>, rank: T -> Rank) {
    forall i, j :: 0 <= i < |s| && 0 <= j < |s| && rank(s[i]) == rank(s[j]) ==> s[i] == s[j]
  }

  lemma {:induction false} SortedUnique<T>(a: seq<T>, b: seq<T>, rank: T -> Rank)
    requires SortedBy(a, rank) && SortedBy(b, rank)
    requires multiset(a) == multiset(b)
    requires RankInjective(a, rank)
    ensures a == b
  {
    if a == [] {
      assert |b| == |multiset(b)| == 0;
    } else {
      assert b != [] by { assert |b| == |multiset(b)| == |multiset(a)| == |a|; }
      SameHead(a, b, rank);
      TailFacts(a, b, rank);
      SortedUnique(a[1..], b[1..], rank);
    }
  }

  lemma TailFacts<T>(a: seq<T>, b: seq<T>, rank: T -> Rank)
    requires a != [] && b != [] && a[0] == b[0]
    requires SortedBy(a, rank) && SortedBy(b, rank)
    requires multiset(a) == multiset(b)
    requires RankInjective(a, rank)
    ensures SortedBy(a[1..], rank) && SortedBy(b[1..], rank)
    ensures multiset(a[1..]) == multiset(b[1..])
    ensures RankInjective(a[1..], rank)
  {
    assert a == [a[0]] + a[1..] && b == [b[0]] + b[1..];
    calc {
      multiset(a[1..]);
      multiset(a) - multiset([a[0]]);
      multiset(b) - multiset([b[0]]);
      multiset(b[1..]);
    }
  }

  lemma SameHead<T>(a: seq<T>, b: seq<T>, rank: T -> Rank)
    requires a != [] && b != []
    requires SortedBy(a, rank) && SortedBy(b, rank)
    requires multiset(a) == multiset(b)
    requires RankInjective(a, rank)
    ensures a[0] == b[0]
  {
    assert a[0] in multiset(b);
    assert b[0] in multiset(a);
    var m :| 0 <= m < |a| && a[m] == b[0];
    var n :| 0 <= n < |b| && b[n] == a[0];
    assert RankLe(rank(a[0]), rank(a[m]));
    assert RankLe(rank(b[0]), rank(b[n]));
    assert rank(a[0]) == rank(a[m]);
  }

  /**
   * When no two elements share a key, the sorted order does not depend on
   * the order of the input: any two enumerations of the same elements sort
   * to the same sequence.
   */
  lemma SortByDeterministic<T>(s1: seq<T>, s2: seq<T>, rank: T -> Rank)
    requires multiset(s1) == multiset(s2)
    requires RankInjective(s1, rank)
    ensures SortBy(s1, rank) == SortBy(s2, rank)
  {
    var a, b := SortBy(s1, rank), SortBy(s2, rank);
    SortByCorrect(s1, rank);
    SortByCorrect(s2, rank);
    forall i, j | 0 <= i < |a| && 0 <= j < |a| && rank(a[i]) == rank(a[j]) ensures a[i] == a[j] {
      assert a[i] in multiset(s1) && a[j] in multiset(s1);
      var i' :| 0 <= i' < |s1| && s1[i'] == a[i];
      var j' :| 0 <= j' < |s1| && s1[j'] == a[j];
    }
    SortedUnique(a, b, rank);
  }
}
