/**
 * The ordering `get_agents` applies to the feed (app-3.py lines 64-68):
 * Python's stable `sorted` keyed by `Rank`. It is modelled as a stable
 * insertion sort and characterised by the rank buckets it concatenates.
 */
module Sorting {
  import opened Agents

  /** Ranks never decrease along `xs`. */
  predicate Sorted(xs: seq<Agent>) {
    forall i, j :: 0 <= i < j < |xs| ==> Rank(xs[i]) <= Rank(xs[j])
  }

  /** The agents of `xs` whose rank is `k`, in their order in `xs`. */
  function WithRank(xs: seq<Agent>, k: nat): seq<Agent> {
    if xs == [] then []
    else (if Rank(xs[0]) == k then [xs[0]] else []) + WithRank(xs[1..], k)
  }

  /** `WithRank` keeps only agents of `xs`, and only those of rank `k`. */
  lemma WithRankMembers(xs: seq<Agent>, k: nat)
    ensures |WithRank(xs, k)| <= |xs|
    ensures forall e :: e in WithRank(xs, k) ==> e in xs && Rank(e) == k
  {
  }

  /**
   * Places `x` in front of the first element whose rank is not below its
   * own, so that `x` stays ahead of every equal-ranked element of `ys`.
   */
  function Insert(x: Agent, ys: seq<Agent>): (r: seq<Agent>)
    ensures multiset(r) == multiset(ys) + multiset{x}
  {
    if ys == [] || Rank(x) <= Rank(ys[0]) then [x] + ys
    else
      assert ys == [ys[0]] + ys[1..];
      [ys[0]] + Insert(x, ys[1..])
  }

  /** Every agent of `xs` has a rank of at least `m`. */
  predicate RanksAtLeast(xs: seq<Agent>, m: nat) {
    forall i :: 0 <= i < |xs| ==> m <= Rank(xs[i])
  }

  lemma {:induction false} InsertRanksAtLeast(x: Agent, ys: seq<Agent>, m: nat)
    requires m <= Rank(x) && RanksAtLeast(ys, m)
    ensures RanksAtLeast(Insert(x, ys), m)
  {
    if ys == [] || Rank(x) <= Rank(ys[0]) {
    } else {
      InsertRanksAtLeast(x, ys[1..], m);
    }
  }

  lemma SortedCons(y: Agent, t: seq<Agent>)
    requires Sorted(t) && RanksAtLeast(t, Rank(y))
    ensures Sorted([y] + t)
  {
  }

  lemma {:induction false} InsertKeepsSorted(x: Agent, ys: seq<Agent>)
    requires Sorted(ys)
    ensures Sorted(Insert(x, ys))
  {
    if ys == [] || Rank(x) <= Rank(ys[0]) {
      SortedCons(x, ys);
    } else {
      InsertKeepsSorted(x, ys[1..]);
      InsertRanksAtLeast(x, ys[1..], Rank(ys[0]));
      SortedCons(ys[0], Insert(x, ys[1..]));
    }
  }

  /** The feed ordered by rank, equal ranks keeping their feed order. */
  function SortByRank(xs: seq<Agent>): (r: seq<Agent>)
    ensures multiset(r) == multiset(xs)
    ensures |r| == |xs|
    ensures Sorted(r)
  {
    if xs == [] then []
    else
      assert xs == [xs[0]] + xs[1..];
      var rest := SortByRank(xs[1..]);
      InsertKeepsSorted(xs[0], rest);
      Insert(xs[0], rest)
  }

  lemma {:induction false} WithRankAppend(a: seq<Agent>, b: seq<Agent>, k: nat)
    ensures WithRank(a + b, k) == WithRank(a, k) + WithRank(b, k)
  {
    if a == [] {
      assert a + b == b;
    } else {
      assert a + b == [a[0]] + (a[1..] + b);
      assert a == [a[0]] + a[1..];
      WithRankCons(a[0], a[1..] + b, k);
      WithRankCons(a[0], a[1..], k);
      WithRankAppend(a[1..], b, k);
    }
  }

  lemma WithRankCons(e: Agent, t: seq<Agent>, k: nat)
    ensures WithRank([e] + t, k) == (if Rank(e) == k then [e] else []) + WithRank(t, k)
  {
    assert ([e] + t)[1..] == t;
  }

  lemma {:induction false} InsertWithRank(x: Agent, ys: seq<Agent>, k: nat)
    ensures WithRank(Insert(x, ys), k)
         == (if Rank(x) == k then [x] else []) + WithRank(ys, k)
  {
    if ys == [] || Rank(x) <= Rank(ys[0]) {
      WithRankCons(x, ys, k);
    } else {
      var y, t := ys[0], Insert(x, ys[1..]);
      assert Insert(x, ys) == [y] + t;
      assert ys == [y] + ys[1..];
      InsertWithRank(x, ys[1..], k);
      WithRankCons(y, t, k);
      WithRankCons(y, ys[1..], k);
      if Rank(x) == k {
        assert Rank(y) != k;
      } else {
        assert WithRank(t, k) == WithRank(ys[1..], k);
      }
    }
  }

  /**
   * Stability: for every rank, the agents of that rank appear in the sorted
   * list exactly as, and in the order that, they appear in the feed.
   */
  lemma {:induction false} SortIsStable(xs: seq<Agent>, k: nat)
    ensures WithRank(SortByRank(xs), k) == WithRank(xs, k)
  {
    if xs != [] {
      SortIsStable(xs[1..], k);
      InsertWithRank(xs[0], SortByRank(xs[1..]), k);
    }
  }

  lemma {:induction false} WithRankOfInvalidRank(xs: seq<Agent>, k: nat)
    requires !IsRankValue(k)
    ensures WithRank(xs, k) == []
  {
    if xs != [] {
      WithRankOfInvalidRank(xs[1..], k);
      RankIsIndex(xs[0]);
    }
  }

  lemma WithRankBelowHead(xs: seq<Agent>, k: nat)
    requires Sorted(xs) && xs != [] && k < Rank(xs[0])
    ensures WithRank(xs, k) == []
  {
    WithRankMembers(xs, k);
  }

  lemma HeadInOwnBucket(xs: seq<Agent>)
    ensures xs != [] ==> WithRank(xs, Rank(xs[0])) != []
  {
    if xs != [] {
      assert xs == [xs[0]] + xs[1..];
      WithRankCons(xs[0], xs[1..], Rank(xs[0]));
    }
  }

  /**
   * A rank-sorted list is determined by its per-rank subsequences: two
   * sorted lists that agree on every rank are equal.
   */
  lemma {:induction false} SortedUnique(a: seq<Agent>, b: seq<Agent>)
    requires Sorted(a) && Sorted(b)
    requires forall k: nat :: WithRank(a, k) == WithRank(b, k)
    ensures a == b
    decreases |a| + |b|
  {
    HeadInOwnBucket(a);
    HeadInOwnBucket(b);
    if a != [] && b != [] {
      var ka, kb := Rank(a[0]), Rank(b[0]);
      assert WithRank(a, ka) == WithRank(b, ka);
      assert WithRank(a, kb) == WithRank(b, kb);
      HeadsEqual(a, b);
      TailsAgree(a, b);
      SortedTail(a);
      SortedTail(b);
      SortedUnique(a[1..], b[1..]);
      assert a == [a[0]] + a[1..] && b == [b[0]] + b[1..];
    }
  }

  lemma SortedTail(xs: seq<Agent>)
    requires Sorted(xs) && xs != []
    ensures Sorted(xs[1..])
  {
    forall i, j | 0 <= i < j < |xs| - 1
      ensures Rank(xs[1..][i]) <= Rank(xs[1..][j])
    {
      assert xs[1..][i] == xs[i + 1] && xs[1..][j] == xs[j + 1];
    }
  }

  lemma HeadsEqual(a: seq<Agent>, b: seq<Agent>)
    requires Sorted(a) && Sorted(b) && a != [] && b != []
    requires WithRank(a, Rank(a[0])) == WithRank(b, Rank(a[0]))
    requires WithRank(a, Rank(b[0])) == WithRank(b, Rank(b[0]))
    ensures a[0] == b[0]
  {
    var ra, rb := Rank(a[0]), Rank(b[0]);
    HeadInOwnBucket(a);
    HeadInOwnBucket(b);
    if ra < rb {
      WithRankBelowHead(b, ra);
    } else if rb < ra {
      WithRankBelowHead(a, rb);
    } else {
      assert a == [a[0]] + a[1..] && b == [b[0]] + b[1..];
      WithRankCons(a[0], a[1..], ra);
      WithRankCons(b[0], b[1..], ra);
      assert WithRank(a, ra)[0] == a[0];
      assert WithRank(b, ra)[0] == b[0];
    }
  }

  lemma TailsAgree(a: seq<Agent>, b: seq<Agent>)
    requires a != [] && b != [] && a[0] == b[0]
    requires forall k: nat :: WithRank(a, k) == WithRank(b, k)
    ensures forall k: nat :: WithRank(a[1..], k) == WithRank(b[1..], k)
  {
    assert a == [a[0]] + a[1..] && b == [b[0]] + b[1..];
    forall k: nat
      ensures WithRank(a[1..], k) == WithRank(b[1..], k)
    {
      WithRankCons(a[0], a[1..], k);
      WithRankCons(b[0], b[1..], k);
      var h := if Rank(a[0]) == k then [a[0]] else [];
      assert h + WithRank(a[1..], k) == h + WithRank(b[1..], k);
      assert WithRank(a[1..], k) == (h + WithRank(a[1..], k))[|h|..];
      assert WithRank(b[1..], k) == (h + WithRank(b[1..], k))[|h|..];
    }
  }

  /** The concatenation of the rank-0, 1, 2, 3 and 99 subsequences of `xs`. */
  function BucketOrder(xs: seq<Agent>): seq<Agent> {
    WithRank(xs, 0) + WithRank(xs, 1) + WithRank(xs, 2) + WithRank(xs, 3)
      + WithRank(xs, UnrankedRank)
  }

  lemma WithRankOfBucket(xs: seq<Agent>, j: nat, k: nat)
    ensures WithRank(WithRank(xs, j), k) == if j == k then WithRank(xs, j) else []
  {
    if xs != [] {
      WithRankOfBucket(xs[1..], j, k);
      WithRankAppend(if Rank(xs[0]) == j then [xs[0]] else [], WithRank(xs[1..], j), k);
    }
  }

  /** Every agent of `xs` has a rank of at most `m`. */
  predicate RanksAtMost(xs: seq<Agent>, m: nat) {
    forall i :: 0 <= i < |xs| ==> Rank(xs[i]) <= m
  }

  /** A bucket is sorted, all its ranks being `k`. */
  lemma BucketBounds(xs: seq<Agent>, k: nat)
    ensures Sorted(WithRank(xs, k))
    ensures RanksAtMost(WithRank(xs, k), k) && RanksAtLeast(WithRank(xs, k), k)
  {
    var b := WithRank(xs, k);
    WithRankMembers(xs, k);
    assert forall i :: 0 <= i < |b| ==> b[i] in b;
  }

  /**
   * Appending a sorted list whose ranks are at least `bound` to a sorted list
   * whose ranks are at most `bound` gives a sorted list.
   */
  lemma SortedAppend(a: seq<Agent>, b: seq<Agent>, bound: nat, top: nat)
    requires Sorted(a) && Sorted(b) && bound <= top
    requires RanksAtMost(a, bound) && RanksAtLeast(b, bound) && RanksAtMost(b, top)
    ensures Sorted(a + b) && RanksAtMost(a + b, top)
  {
    var r := a + b;
    forall i, j | 0 <= i < j < |r|
      ensures Rank(r[i]) <= Rank(r[j])
    {
      if j < |a| {
        assert r[i] == a[i] && r[j] == a[j];
      } else if i >= |a| {
        assert r[i] == b[i - |a|] && r[j] == b[j - |a|];
      } else {
        assert r[i] == a[i] && r[j] == b[j - |a|];
      }
    }
    forall i | 0 <= i < |r|
      ensures Rank(r[i]) <= top
    {
      if i < |a| {
        assert r[i] == a[i];
      } else {
        assert r[i] == b[i - |a|];
      }
    }
  }

  lemma BucketOrderSorted(xs: seq<Agent>)
    ensures Sorted(BucketOrder(xs))
  {
    var b0, b1, b2, b3, b9 := WithRank(xs, 0), WithRank(xs, 1), WithRank(xs, 2),
      WithRank(xs, 3), WithRank(xs, UnrankedRank);
    BucketBounds(xs, 0);
    BucketBounds(xs, 1);
    BucketBounds(xs, 2);
    BucketBounds(xs, 3);
    BucketBounds(xs, UnrankedRank);
    SortedAppend(b0, b1, 0, 1);
    SortedAppend(b0 + b1, b2, 1, 2);
    SortedAppend(b0 + b1 + b2, b3, 2, 3);
    SortedAppend(b0 + b1 + b2 + b3, b9, 3, UnrankedRank);
  }

  lemma AppendBucket(p: seq<Agent>, xs: seq<Agent>, j: nat, k: nat)
    ensures WithRank(p + WithRank(xs, j), k)
         == WithRank(p, k) + (if j == k then WithRank(xs, k) else [])
  {
    WithRankAppend(p, WithRank(xs, j), k);
    WithRankOfBucket(xs, j, k);
  }

  lemma BucketOrderWithRank(xs: seq<Agent>, k: nat)
    ensures WithRank(BucketOrder(xs), k) == WithRank(xs, k)
  {
    var b0, b1, b2, b3, b9 := WithRank(xs, 0), WithRank(xs, 1), WithRank(xs, 2),
      WithRank(xs, 3), WithRank(xs, UnrankedRank);
    var p1, p2, p3 := b0 + b1, b0 + b1 + b2, b0 + b1 + b2 + b3;
    assert BucketOrder(xs) == p3 + b9;
    WithRankOfBucket(xs, 0, k);
    AppendBucket(b0, xs, 1, k);
    AppendBucket(p1, xs, 2, k);
    AppendBucket(p2, xs, 3, k);
    AppendBucket(p3, xs, UnrankedRank, k);
    if !IsRankValue(k) {
      WithRankOfInvalidRank(xs, k);
    }
  }

  /**
   * The sorted feed is the rank-0 agents, then rank 1, 2, 3, then every agent
   * with a missing or unrecognised status, each group in feed order.
   */
  lemma SortIsBucketOrder(xs: seq<Agent>)
    ensures SortByRank(xs) == BucketOrder(xs)
  {
    BucketOrderSorted(xs);
    forall k: nat
      ensures WithRank(SortByRank(xs), k) == WithRank(BucketOrder(xs), k)
    {
      SortIsStable(xs, k);
      BucketOrderWithRank(xs, k);
    }
    SortedUnique(SortByRank(xs), BucketOrder(xs));
  }
}
