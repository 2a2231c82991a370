/** Pairwise Jaccard similarity of the failed attempts' log-line sets, and
    its average over all unordered pairs. */
module Similarity {

  /** `|a ∩ b| / |a ∪ b|`, and 1 for two empty sets. */
  function Jaccard(a: set<string>, b: set<string>): (r: real)
    ensures 0.0 <= r <= 1.0
  {
    SubsetCard(a * b, a + b);
    if |a + b| > 0 then
      UnitRatio(|a * b| as real, |a + b| as real);
      (|a * b| as real) / (|a + b| as real)
    else 1.0
  }

  /** A subset is no larger. */
  lemma {:induction false} SubsetCard<T>(s: set<T>, t: set<T>)
    requires s <= t
    ensures |s| <= |t|
    decreases s
  {
    if s != {} {
      var x :| x in s;
      SubsetCard(s - {x}, t - {x});
    }
  }

  /** A subset of the same size is the whole set. */
  lemma SubsetCardEq<T>(s: set<T>, t: set<T>)
    requires s <= t && |s| == |t|
    ensures s == t
  {
    if s != t {
      var x :| x in t && x !in s;
      SubsetCard(s, t - {x});
    }
  }

  lemma UnitRatio(x: real, y: real)
    requires 0.0 <= x <= y && y > 0.0
    ensures 0.0 <= x / y <= 1.0
  {
    assert x / y * y == x;
  }

  lemma JaccardSymmetric(a: set<string>, b: set<string>)
    ensures Jaccard(a, b) == Jaccard(b, a)
  {
    assert a * b == b * a && a + b == b + a;
  }

  /** Two sets are fully similar exactly when they are equal. */
  lemma JaccardOne(a: set<string>, b: set<string>)
    ensures Jaccard(a, b) == 1.0 <==> a == b
  {
    if a == b {
      assert a * b == a + b;
    }
    if Jaccard(a, b) == 1.0 && |a + b| > 0 {
      SubsetCardEq(a * b, a + b);
      assert a == b by {
        forall x | x in a + b ensures x in a && x in b {
          assert x in a * b;
        }
      }
    }
  }

  /** Two sets are not similar at all exactly when they are disjoint and
      not both empty. */
  lemma JaccardZero(a: set<string>, b: set<string>)
    ensures Jaccard(a, b) == 0.0 <==> a * b == {} && a + b != {}
  {
    if a * b != {} {
      var x :| x in a * b;
      assert x in a + b;
    }
  }

  // ---------------------------------------------------------------------
  // Sums in the order of the nested loops

  /** The similarities of `sets[i]` with `sets[i+1 .. hi-1]`. */
  function Row(sets: seq<set<string>>, i: nat, hi: nat): real
    requires i < |sets| && hi <= |sets|
    decreases hi
  {
    if hi <= i + 1 then 0.0 else Row(sets, i, hi - 1) + Jaccard(sets[i], sets[hi - 1])
  }

  /** The similarities of every pair whose first index is below `m`. */
  function Pairs(sets: seq<set<string>>, m: nat): real
    requires m <= |sets|
    decreases m
  {
    if m == 0 then 0.0 else Pairs(sets, m - 1) + Row(sets, m - 1, |sets|)
  }

  /** The number of pairs whose first index is below `m`. */
  function PairsCounted(n: nat, m: nat): nat
    requires m <= n
    decreases m
  {
    if m == 0 then 0 else PairsCounted(n, m - 1) + (n - m)
  }

  /** All unordered pairs of `n` things. */
  function PairCount(n: nat): nat {
    n * (n - 1) / 2
  }

  lemma {:induction false} PairsCountedAll(n: nat, m: nat)
    requires m <= n
    ensures 2 * PairsCounted(n, m) == m * (2 * n - m - 1)
    decreases m
  {
    if m > 0 {
      PairsCountedAll(n, m - 1);
    }
  }

  lemma PairCountIsPairsCounted(n: nat)
    ensures PairsCounted(n, n) == PairCount(n)
  {
    PairsCountedAll(n, n);
  }

  /** `totalSimilarity / pairCount`, or 1 when there is no pair. */
  function AverageSimilarity(sets: seq<set<string>>): (r: real)
    ensures 0.0 <= r <= 1.0
  {
    var count := PairCount(|sets|);
    PairsBounds(sets, |sets|);
    PairCountIsPairsCounted(|sets|);
    if count > 0 then Pairs(sets, |sets|) / (count as real) else 1.0
  }

  /** The two nested loops: every pair `i < j` once, in order. */
  method SumPairs(sets: seq<set<string>>) returns (total: real, count: nat)
    ensures total == Pairs(sets, |sets|)
    ensures count == PairCount(|sets|)
  {
    total, count := 0.0, 0;
    var n := |sets|;
    for i := 0 to n
      invariant total == Pairs(sets, i)
      invariant count == PairsCounted(n, i)
    {
      for j := i + 1 to n
        invariant total == Pairs(sets, i) + Row(sets, i, j)
        invariant count == PairsCounted(n, i) + (j - i - 1)
      {
        total := total + Jaccard(sets[i], sets[j]);
        count := count + 1;
      }
    }
    PairCountIsPairsCounted(n);
  }

  // ---------------------------------------------------------------------
  // Bounds and the extreme cases

  lemma {:induction false} RowBounds(sets: seq<set<string>>, i: nat, hi: nat)
    requires i < |sets| && hi <= |sets|
    ensures 0.0 <= Row(sets, i, hi)
    ensures hi > i ==> Row(sets, i, hi) <= (hi - i - 1) as real
    ensures hi <= i ==> Row(sets, i, hi) == 0.0
    decreases hi
  {
    if hi > i + 1 {
      RowBounds(sets, i, hi - 1);
    }
  }

  lemma {:induction false} PairsBounds(sets: seq<set<string>>, m: nat)
    requires m <= |sets|
    ensures 0.0 <= Pairs(sets, m) <= PairsCounted(|sets|, m) as real
    decreases m
  {
    if m > 0 {
      PairsBounds(sets, m - 1);
      RowBounds(sets, m - 1, |sets|);
    }
  }

  /** All sets equal. */
  predicate AllEqual(sets: seq<set<string>>) {
    forall i, j :: 0 <= i < |sets| && 0 <= j < |sets| ==> sets[i] == sets[j]
  }

  /** Every row reaches its maximum exactly when `sets[i]` equals every
      later set up to `hi`. */
  lemma {:induction false} RowFull(sets: seq<set<string>>, i: nat, hi: nat)
    requires i < hi <= |sets|
    ensures Row(sets, i, hi) == (hi - i - 1) as real <==>
      forall k :: i < k < hi ==> sets[i] == sets[k]
    decreases hi
  {
    if hi > i + 1 {
      RowFull(sets, i, hi - 1);
      RowBounds(sets, i, hi - 1);
      JaccardOne(sets[i], sets[hi - 1]);
    }
  }

  /** All pairs below `m` reach the maximum exactly when each of those
      first sets equals every later set. */
  lemma {:induction false} PairsFull(sets: seq<set<string>>, m: nat)
    requires m <= |sets|
    ensures Pairs(sets, m) == PairsCounted(|sets|, m) as real <==>
      forall i, k :: 0 <= i < m && i < k < |sets| ==> sets[i] == sets[k]
    decreases m
  {
    if m > 0 {
      PairsFull(sets, m - 1);
      PairsBounds(sets, m - 1);
      RowBounds(sets, m - 1, |sets|);
      RowFull(sets, m - 1, |sets|);
    }
  }

  /** With at least two sets, the average is 1 exactly when all the sets are
      equal. */
  lemma AverageOne(sets: seq<set<string>>)
    requires |sets| >= 2
    ensures AverageSimilarity(sets) == 1.0 <==> AllEqual(sets)
  {
    var n := |sets|;
    PairsFull(sets, n);
    PairCountIsPairsCounted(n);
    assert n * (n - 1) >= 2 * 1 by {
      assert n - 1 >= 1;
    }
    var c := PairCount(n) as real;
    assert c > 0.0;
    if AllEqual(sets) {
      assert forall i, k :: 0 <= i < n && i < k < n ==> sets[i] == sets[k];
    }
    if AverageSimilarity(sets) == 1.0 {
      assert Pairs(sets, n) / c == 1.0;
      assert Pairs(sets, n) == c;
      forall i, j | 0 <= i < n && 0 <= j < n ensures sets[i] == sets[j] {
        if i < j {
          assert sets[i] == sets[j];
        } else if j < i {
          assert sets[j] == sets[i];
        }
      }
    }
  }

  /** Pairwise disjoint non-empty sets. */
  predicate Scattered(sets: seq<set<string>>) {
    && (forall i :: 0 <= i < |sets| ==> sets[i] != {})
    && (forall i, j :: 0 <= i < j < |sets| ==> sets[i] * sets[j] == {})
  }

  lemma {:induction false} RowZero(sets: seq<set<string>>, i: nat, hi: nat)
    requires i < |sets| && hi <= |sets| && Scattered(sets)
    ensures Row(sets, i, hi) == 0.0
    decreases hi
  {
    if hi > i + 1 {
      RowZero(sets, i, hi - 1);
      JaccardZero(sets[i], sets[hi - 1]);
    }
  }

  lemma {:induction false} PairsZero(sets: seq<set<string>>, m: nat)
    requires m <= |sets| && Scattered(sets)
    ensures Pairs(sets, m) == 0.0
    decreases m
  {
    if m > 0 {
      PairsZero(sets, m - 1);
      RowZero(sets, m - 1, |sets|);
    }
  }

  /** Pairwise disjoint non-empty sets have average similarity 0, once there
      are two of them. */
  lemma AverageZero(sets: seq<set<string>>)
    requires |sets| >= 2 && Scattered(sets)
    ensures AverageSimilarity(sets) == 0.0
  {
    PairsZero(sets, |sets|);
  }
}
