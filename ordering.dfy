/**
 * Orderings used by the handlers: the default order of JavaScript's
 * `Array.prototype.sort` on strings (lexicographic by character), and the
 * descending `sort({ key: -1 })` of the document store, keyed by a pair of
 * integers compared lexicographically.
 */
module Ordering {
  import opened Common

  /** Strict lexicographic order on strings, as `[x, y].sort()` compares them. */
  predicate StrLess(a: string, b: string)
    decreases |a|
  {
    if a == [] then b != []
    else if b == [] then false
    else if a[0] != b[0] then a[0] < b[0]
    else StrLess(a[1..], b[1..])
  }

  lemma {:induction false} StrLessIrreflexive(a: string)
    ensures !StrLess(a, a)
    decreases |a|
  {
    if a != [] {
      StrLessIrreflexive(a[1..]);
    }
  }

  lemma {:induction false} StrLessAsymmetric(a: string, b: string)
    requires StrLess(a, b)
    ensures !StrLess(b, a)
    decreases |a|
  {
    if a != [] && b != [] && a[0] == b[0] {
      StrLessAsymmetric(a[1..], b[1..]);
    }
  }

  /** Any two different strings are ordered one way or the other. */
  lemma {:induction false} StrLessTotal(a: string, b: string)
    requires a != b
    ensures StrLess(a, b) || StrLess(b, a)
    decreases |a|
  {
    if a != [] && b != [] && a[0] == b[0] {
      assert a == [a[0]] + a[1..] && b == [b[0]] + b[1..];
      StrLessTotal(a[1..], b[1..]);
    }
  }

  /** The ascending order of a two-element array of ids after `.sort()`. */
  function SortPair(a: string, b: string): (p: (string, string))
    ensures !StrLess(p.1, p.0)
    ensures (p.0 == a && p.1 == b) || (p.0 == b && p.1 == a)
  {
    if StrLess(b, a) then
      StrLessAsymmetric(b, a);
      (b, a)
    else (a, b)
  }

  /** Sorting a pair does not depend on the order it is given in. */
  lemma SortPairSymmetric(a: string, b: string)
    ensures SortPair(a, b) == SortPair(b, a)
  {
    if a != b {
      StrLessTotal(a, b);
      if StrLess(a, b) {
        StrLessAsymmetric(a, b);
      } else {
        StrLessAsymmetric(b, a);
      }
    }
  }

  /** A sort key: compared on `major` first, then on `minor`. */
  datatype Rank = Rank(major: int, minor: int)

  predicate RankLeq(x: Rank, y: Rank) {
    x.major < y.major || (x.major == y.major && x.minor <= y.minor)
  }

  /** `s` is sorted with the largest key first. */
  ghost predicate Descending<T>(s: seq<T>, rank: T -> Rank) {
    forall i, j :: 0 <= i < j < |s| ==> RankLeq(rank(s[j]), rank(s[i]))
  }

  function InsertDesc<T>(x: T, s: seq<T>, rank: T -> Rank): (r: seq<T>)
    ensures |r| == |s| + 1
  {
    if s == [] then [x]
    else if RankLeq(rank(s[0]), rank(x)) then [x] + s
    else [s[0]] + InsertDesc(x, s[1..], rank)
  }

  lemma {:induction false} InsertDescMembers<T>(x: T, s: seq<T>, rank: T -> Rank)
    ensures multiset(InsertDesc(x, s, rank)) == multiset(s) + multiset{x}
  {
    if s != [] && !RankLeq(rank(s[0]), rank(x)) {
      InsertDescMembers(x, s[1..], rank);
      assert s == [s[0]] + s[1..];
    }
  }

  /** Putting an element no lower than everything in a descending sequence at its front keeps it descending. */
  lemma ConsDescending<T>(h: T, rest: seq<T>, rank: T -> Rank)
    requires Descending(rest, rank)
    requires forall k :: 0 <= k < |rest| ==> RankLeq(rank(rest[k]), rank(h))
    ensures Descending([h] + rest, rank)
  {
    var r := [h] + rest;
    forall i, j | 0 <= i < j < |r|
      ensures RankLeq(rank(r[j]), rank(r[i]))
    {
      assert r[j] == rest[j - 1];
      if i > 0 {
        assert r[i] == rest[i - 1];
      }
    }
  }

  /** Inserting an element no higher than `top` into elements no higher than `top` keeps them all no higher. */
  lemma InsertDescBelow<T>(x: T, s: seq<T>, rank: T -> Rank, top: Rank)
    requires RankLeq(rank(x), top)
    requires forall k :: 0 <= k < |s| ==> RankLeq(rank(s[k]), top)
    ensures forall k :: 0 <= k < |InsertDesc(x, s, rank)| ==> RankLeq(rank(InsertDesc(x, s, rank)[k]), top)
  {
    var r := InsertDesc(x, s, rank);
    InsertDescMembers(x, s, rank);
    forall k | 0 <= k < |r|
      ensures RankLeq(rank(r[k]), top)
    {
      assert r[k] in multiset(r);
      if r[k] != x {
        assert r[k] in multiset(s);
        var j :| 0 <= j < |s| && s[j] == r[k];
      }
    }
  }

  /** Inserting into a descending sequence keeps it descending. */
  lemma {:induction false} InsertDescSorted<T>(x: T, s: seq<T>, rank: T -> Rank)
    requires Descending(s, rank)
    ensures Descending(InsertDesc(x, s, rank), rank)
  {
    if s != [] && !RankLeq(rank(s[0]), rank(x)) {
      var rest := InsertDesc(x, s[1..], rank);
      InsertDescSorted(x, s[1..], rank);
      InsertDescBelow(x, s[1..], rank, rank(s[0]));
      ConsDescending(s[0], rest, rank);
    }
  }

  /** The documents of `s` ordered by descending key, as `sort({ key: -1 })` returns them. */
  function SortDesc<T>(s: seq<T>, rank: T -> Rank): (r: seq<T>)
    ensures Descending(r, rank)
    ensures multiset(r) == multiset(s)
    ensures |r| == |s|
  {
    if s == [] then []
    else
      var rest := SortDesc(s[1..], rank);
      InsertDescSorted(s[0], rest, rank);
      InsertDescMembers(s[0], rest, rank);
      assert s == [s[0]] + s[1..];
      InsertDesc(s[0], rest, rank)
  }

  /** Sorting neither adds nor drops a document. */
  lemma SortDescSameMembers<T(!new)>(s: seq<T>, rank: T -> Rank)
    ensures forall x :: x in SortDesc(s, rank) <==> x in s
  {
    var r := SortDesc(s, rank);
    assert forall x :: x in r <==> x in multiset(r);
  }

  /** The first `n` (as `limit(n)` takes them) of a descending sequence are descending and come from it. */
  lemma LimitDescending<T(!new)>(s: seq<T>, rank: T -> Rank, n: int)
    requires Descending(s, rank)
    ensures Descending(Limit(s, n), rank)
    ensures forall x :: x in Limit(s, n) ==> x in s
  {
    var r := Limit(s, n);
    assert r == s[..|r|];
  }

  /**
   * In a descending sequence, everything outside the first `k` elements is no
   * larger than anything inside them: the first `k` are the `k` largest.
   */
  lemma PrefixHoldsLargest<T>(s: seq<T>, rank: T -> Rank, k: nat, x: T, y: T)
    requires Descending(s, rank)
    requires k <= |s|
    requires x in s[..k]
    requires y in s && y !in s[..k]
    ensures RankLeq(rank(y), rank(x))
  {
    var i :| 0 <= i < k && s[..k][i] == x;
    var j :| 0 <= j < |s| && s[j] == y;
  }

  /**
   * `sort({ key: -1 }).limit(n)` over the documents of `pool`: the `n`
   * highest, highest first (every document when `n` is 0).
   */
  function Top<T(!new)>(pool: seq<T>, rank: T -> Rank, n: int): (r: seq<T>)
    ensures Descending(r, rank)
    ensures n != 0 ==> |r| == Min(|pool|, Abs(n))
    ensures n == 0 ==> |r| == |pool|
    ensures forall x :: x in r ==> x in pool
    ensures multiset(r) <= multiset(pool)
  {
    var s := SortDesc(pool, rank);
    var r := Limit(s, n);
    SortDescSameMembers(pool, rank);
    LimitDescending(s, rank, n);
    assert s == r + s[|r|..];
    assert multiset(s) == multiset(r) + multiset(s[|r|..]);
    r
  }

  /** No document of the pool left out of the top ranks above one kept in it. */
  lemma TopHoldsLargest<T(!new)>(pool: seq<T>, rank: T -> Rank, n: int, x: T, y: T)
    requires x in Top(pool, rank, n)
    requires y in pool && y !in Top(pool, rank, n)
    ensures RankLeq(rank(y), rank(x))
  {
    var sorted := SortDesc(pool, rank);
    var top := Limit(sorted, n);
    SortDescSameMembers(pool, rank);
    assert top == sorted[..|top|];
    PrefixHoldsLargest(sorted, rank, |top|, x, y);
  }

  /** When the limit is not reached, every document of the pool is in the top. */
  lemma TopAllWhenFew<T(!new)>(pool: seq<T>, rank: T -> Rank, n: int, y: T)
    requires n == 0 || |pool| <= Abs(n)
    requires y in pool
    ensures y in Top(pool, rank, n)
  {
    SortDescSameMembers(pool, rank);
  }

  /** Filtering elements no higher than `top` leaves elements no higher than `top`. */
  lemma FilterBelow<T(!new)>(s: seq<T>, p: T -> bool, rank: T -> Rank, top: Rank)
    requires forall k :: 0 <= k < |s| ==> RankLeq(rank(s[k]), top)
    ensures forall k :: 0 <= k < |Filter(s, p)| ==> RankLeq(rank(Filter(s, p)[k]), top)
  {
    var r := Filter(s, p);
    forall k | 0 <= k < |r|
      ensures RankLeq(rank(r[k]), top)
    {
      assert r[k] in r;
      var j :| 0 <= j < |s| && s[j] == r[k];
    }
  }

  /** Dropping elements from a descending sequence keeps it descending. */
  lemma {:induction false} FilterKeepsDescending<T(!new)>(s: seq<T>, p: T -> bool, rank: T -> Rank)
    requires Descending(s, rank)
    ensures Descending(Filter(s, p), rank)
  {
    if s != [] {
      assert Descending(s[1..], rank);
      FilterKeepsDescending(s[1..], p, rank);
      if p(s[0]) {
        var rest := Filter(s[1..], p);
        assert Filter(s, p) == [s[0]] + rest;
        FilterBelow(s[1..], p, rank, rank(s[0]));
        ConsDescending(s[0], rest, rank);
      }
    }
  }

  /** Reversing a descending sequence gives an ascending one. */
  lemma ReverseAscending<T>(s: seq<T>, rank: T -> Rank, r: seq<T>)
    requires Descending(s, rank)
    requires |r| == |s|
    requires forall i :: 0 <= i < |s| ==> r[i] == s[|s| - 1 - i]
    ensures forall i, j :: 0 <= i < j < |r| ==> RankLeq(rank(r[i]), rank(r[j]))
  {
  }
}
