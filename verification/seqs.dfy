/** Sequence helpers: duplicate-free sequences (a JavaScript `Set` whose
    insertion order is observable), filtering and mapping. */
module Seqs {

  /** No element occurs twice. */
  predicate NoDup<T(==)>(s: seq<T>) {
    forall i, j :: 0 <= i < j < |s| ==> s[i] != s[j]
  }

  /** `set.add(x)` on an insertion-ordered set: appends `x` unless present. */
  function AddUnique<T(==,!new)>(s: seq<T>, x: T): (r: seq<T>)
    ensures s <= r && x in r
    ensures forall y :: y in r <==> y in s || y == x
    ensures |r| <= |s| + 1
    ensures x in s ==> r == s
    ensures NoDup(s) ==> NoDup(r)
  {
    if x in s then s else s + [x]
  }

  /** Adds every element of `xs`, in order, to the insertion-ordered set `s`. */
  function AddAll<T(==,!new)>(s: seq<T>, xs: seq<T>): (r: seq<T>)
    ensures s <= r
    ensures forall y :: y in r <==> y in s || y in xs
    ensures |r| <= |s| + |xs|
    ensures NoDup(s) ==> NoDup(r)
    decreases |xs|
  {
    if |xs| == 0 then s
    else AddUnique(AddAll(s, xs[..|xs| - 1]), xs[|xs| - 1])
  }

  /** Adding one more element after a run adds it unless already there. */
  lemma AddAllSnoc<T(!new)>(s: seq<T>, xs: seq<T>, x: T)
    ensures AddAll(s, xs + [x]) == AddUnique(AddAll(s, xs), x)
  {
    assert (xs + [x])[..|xs|] == xs;
  }

  /** `Array.from(new Set(xs))`: the distinct elements of `xs` in order of
      first occurrence. */
  function Dedup<T(==,!new)>(xs: seq<T>): (r: seq<T>)
    ensures NoDup(r)
    ensures forall y :: y in r <==> y in xs
    ensures |r| <= |xs|
  {
    AddAll([], xs)
  }

  /** Deduplicating one more element adds it unless already seen. */
  lemma DedupSnoc<T(!new)>(xs: seq<T>, x: T)
    ensures Dedup(xs + [x]) == AddUnique(Dedup(xs), x)
  {
    assert (xs + [x])[..|xs|] == xs;
  }

  /** `xs.filter(p)`, written as a left fold so that it matches loops that
      visit `xs` front to back. */
  function Filter<T(!new)>(xs: seq<T>, p: T -> bool): (r: seq<T>)
    ensures |r| <= |xs|
    ensures forall x :: x in r <==> x in xs && p(x)
    decreases |xs|
  {
    if |xs| == 0 then []
    else Filter(xs[..|xs| - 1], p) + (if p(xs[|xs| - 1]) then [xs[|xs| - 1]] else [])
  }

  /** `xs.map(f)`. */
  function Map<T, U>(xs: seq<T>, f: T -> U): (r: seq<U>)
    ensures |r| == |xs|
    ensures forall i :: 0 <= i < |xs| ==> r[i] == f(xs[i])
  {
    seq(|xs|, i requires 0 <= i < |xs| => f(xs[i]))
  }

  /** Filtering keeps relative order: it distributes over concatenation. */
  lemma {:induction false} FilterAppend<T(!new)>(a: seq<T>, b: seq<T>, p: T -> bool)
    ensures Filter(a + b, p) == Filter(a, p) + Filter(b, p)
    decreases |b|
  {
    if |b| == 0 {
      assert a + b == a;
    } else {
      var b' := b[..|b| - 1];
      assert (a + b)[..|a + b| - 1] == a + b';
      assert (a + b)[|a + b| - 1] == b[|b| - 1];
      FilterAppend(a, b', p);
    }
  }

  /** An element of the input that passes the test is kept at some index. */
  lemma FilterKeeps<T(!new)>(xs: seq<T>, p: T -> bool, i: int)
    requires 0 <= i < |xs| && p(xs[i])
    ensures xs[i] in Filter(xs, p)
  {
    assert xs[i] in xs;
  }

  /** Something passes the filter exactly when some element of the input
      satisfies the test. */
  lemma FilterNonEmpty<T(!new)>(xs: seq<T>, p: T -> bool)
    ensures |Filter(xs, p)| > 0 <==> exists i :: 0 <= i < |xs| && p(xs[i])
  {
    if |Filter(xs, p)| > 0 {
      var x := Filter(xs, p)[0];
      assert x in Filter(xs, p);
      var i :| 0 <= i < |xs| && xs[i] == x;
      assert p(xs[i]);
    }
    if exists i :: 0 <= i < |xs| && p(xs[i]) {
      var i :| 0 <= i < |xs| && p(xs[i]);
      FilterKeeps(xs, p, i);
    }
  }

  /** Mapping distributes over concatenation. */
  lemma MapAppend<T, U>(a: seq<T>, b: seq<T>, f: T -> U)
    ensures Map(a + b, f) == Map(a, f) + Map(b, f)
  {
  }

  /** An element of a mapped sequence is the image of some input element. */
  lemma MapMember<T(!new), U>(xs: seq<T>, f: T -> U, y: U)
    ensures y in Map(xs, f) <==> exists x :: x in xs && y == f(x)
  {
    if y in Map(xs, f) {
      var i :| 0 <= i < |xs| && Map(xs, f)[i] == y;
      assert xs[i] in xs;
    }
    if exists x :: x in xs && y == f(x) {
      var x :| x in xs && y == f(x);
      var i :| 0 <= i < |xs| && xs[i] == x;
      assert Map(xs, f)[i] == y;
    }
  }

  /** The union of `f(x)` over the elements of `xs`, front to back. */
  function UnionMap<T, U>(xs: seq<T>, f: T -> set<U>): set<U>
    decreases |xs|
  {
    if |xs| == 0 then {}
    else UnionMap(xs[..|xs| - 1], f) + f(xs[|xs| - 1])
  }

  /** Membership in a union: membership in one of its parts. */
  lemma {:induction false} UnionMapMember<T, U>(xs: seq<T>, f: T -> set<U>, y: U)
    ensures y in UnionMap(xs, f) <==> exists i :: 0 <= i < |xs| && y in f(xs[i])
    decreases |xs|
  {
    if |xs| > 0 {
      var init := xs[..|xs| - 1];
      UnionMapMember(init, f, y);
      if y in UnionMap(init, f) {
        var i :| 0 <= i < |init| && y in f(init[i]);
        assert xs[i] == init[i];
      }
      if exists i :: 0 <= i < |xs| && y in f(xs[i]) {
        var i :| 0 <= i < |xs| && y in f(xs[i]);
        if i < |init| {
          assert init[i] == xs[i];
        }
      }
    }
  }

  /** Extending a prefix by one element adds that element's part. */
  lemma UnionMapSnoc<T, U>(xs: seq<T>, j: nat, f: T -> set<U>)
    requires j < |xs|
    ensures UnionMap(xs[..j + 1], f) == UnionMap(xs[..j], f) + f(xs[j])
  {
    assert xs[..j + 1][..j] == xs[..j];
  }

  /** A union over a concatenation is the union of the two unions. */
  lemma {:induction false} UnionMapAppend<T, U>(a: seq<T>, b: seq<T>, f: T -> set<U>)
    ensures UnionMap(a + b, f) == UnionMap(a, f) + UnionMap(b, f)
    decreases |b|
  {
    if |b| == 0 {
      assert a + b == a;
    } else {
      var b' := b[..|b| - 1];
      assert (a + b)[..|a + b| - 1] == a + b';
      assert (a + b)[|a + b| - 1] == b[|b| - 1];
      UnionMapAppend(a, b', f);
    }
  }

  /** The concatenation of `f(x)` over the elements of `xs`, front to back. */
  function FlatMap<T, U>(xs: seq<T>, f: T -> seq<U>): seq<U>
    decreases |xs|
  {
    if |xs| == 0 then []
    else FlatMap(xs[..|xs| - 1], f) + f(xs[|xs| - 1])
  }

  /** Concatenating over a concatenation. */
  lemma {:induction false} FlatMapAppend<T, U>(a: seq<T>, b: seq<T>, f: T -> seq<U>)
    ensures FlatMap(a + b, f) == FlatMap(a, f) + FlatMap(b, f)
    decreases |b|
  {
    if |b| == 0 {
      assert a + b == a;
    } else {
      var b' := b[..|b| - 1];
      assert (a + b)[..|a + b| - 1] == a + b';
      assert (a + b)[|a + b| - 1] == b[|b| - 1];
      FlatMapAppend(a, b', f);
    }
  }

  /** Something is in a concatenation exactly when it is in one of the
      concatenated parts. */
  lemma {:induction false} FlatMapMember<T, U>(xs: seq<T>, f: T -> seq<U>, y: U)
    ensures y in FlatMap(xs, f) <==> exists i :: 0 <= i < |xs| && y in f(xs[i])
    decreases |xs|
  {
    if |xs| > 0 {
      var init := xs[..|xs| - 1];
      FlatMapMember(init, f, y);
      if y in FlatMap(init, f) {
        var i :| 0 <= i < |init| && y in f(init[i]);
        assert xs[i] == init[i];
      }
      if exists i :: 0 <= i < |xs| && y in f(xs[i]) {
        var i :| 0 <= i < |xs| && y in f(xs[i]);
        if i < |init| {
          assert init[i] == xs[i];
        }
      }
    }
  }

  /** A concatenation is non-empty exactly when one of its parts is. */
  lemma {:induction false} FlatMapNonEmpty<T, U>(xs: seq<T>, f: T -> seq<U>)
    ensures |FlatMap(xs, f)| > 0 <==> exists i :: 0 <= i < |xs| && |f(xs[i])| > 0
    decreases |xs|
  {
    if |xs| > 0 {
      var init := xs[..|xs| - 1];
      FlatMapNonEmpty(init, f);
      if exists i :: 0 <= i < |init| && |f(init[i])| > 0 {
        var i :| 0 <= i < |init| && |f(init[i])| > 0;
        assert xs[i] == init[i];
      }
      if exists i :: 0 <= i < |xs| && |f(xs[i])| > 0 {
        var i :| 0 <= i < |xs| && |f(xs[i])| > 0;
        if i < |init| {
          assert init[i] == xs[i];
        }
      }
    }
  }

  /** Concatenating over the elements that pass a test gives something
      exactly when some element passes and contributes something. */
  lemma FilteredFlatMapNonEmpty<T(!new), U>(xs: seq<T>, p: T -> bool, f: T -> seq<U>)
    ensures |FlatMap(Filter(xs, p), f)| > 0 <==> exists i :: 0 <= i < |xs| && p(xs[i]) && |f(xs[i])| > 0
  {
    var ys := Filter(xs, p);
    FlatMapNonEmpty(ys, f);
    if exists k :: 0 <= k < |ys| && |f(ys[k])| > 0 {
      var k :| 0 <= k < |ys| && |f(ys[k])| > 0;
      assert ys[k] in ys;
      var i :| 0 <= i < |xs| && xs[i] == ys[k];
    }
    if exists i :: 0 <= i < |xs| && p(xs[i]) && |f(xs[i])| > 0 {
      var i :| 0 <= i < |xs| && p(xs[i]) && |f(xs[i])| > 0;
      assert xs[i] in ys;
      var k :| 0 <= k < |ys| && ys[k] == xs[i];
    }
  }

  /** The distinct images of the elements that pass a test are exactly the
      images of those elements. */
  lemma DedupMapFilterMember<T(!new), U(!new)>(xs: seq<T>, p: T -> bool, f: T -> U, y: U)
    ensures y in Dedup(Map(Filter(xs, p), f)) <==> exists i :: 0 <= i < |xs| && p(xs[i]) && f(xs[i]) == y
  {
    var ys := Filter(xs, p);
    MapMember(ys, f, y);
    if y in Map(ys, f) {
      var x :| x in ys && y == f(x);
      var i :| 0 <= i < |xs| && xs[i] == x;
    }
    if exists i :: 0 <= i < |xs| && p(xs[i]) && f(xs[i]) == y {
      var i :| 0 <= i < |xs| && p(xs[i]) && f(xs[i]) == y;
      assert xs[i] in ys;
    }
  }

  /** Some distinct image of the elements that pass a test satisfies `p`
      exactly when the image of one of those elements does. */
  lemma SomeDistinctImage<T(!new), U(!new)>(xs: seq<T>, q: T -> bool, f: T -> U, p: U -> bool)
    ensures (exists y | y in Dedup(Map(Filter(xs, q), f)) :: p(y)) <==>
      exists i :: 0 <= i < |xs| && q(xs[i]) && p(f(xs[i]))
  {
    if exists y | y in Dedup(Map(Filter(xs, q), f)) :: p(y) {
      var y :| y in Dedup(Map(Filter(xs, q), f)) && p(y);
      DedupMapFilterMember(xs, q, f, y);
    }
    if exists i :: 0 <= i < |xs| && q(xs[i]) && p(f(xs[i])) {
      var i :| 0 <= i < |xs| && q(xs[i]) && p(f(xs[i]));
      DedupMapFilterMember(xs, q, f, f(xs[i]));
    }
  }

  /** Filtering images is mapping the filtered inputs, when on every input
      the test on its image is the test on the input. */
  lemma {:induction false} FilterMap<T(!new), U(!new)>(xs: seq<T>, f: T -> U, p: U -> bool, q: T -> bool)
    requires forall i :: 0 <= i < |xs| ==> p(f(xs[i])) == q(xs[i])
    ensures Filter(Map(xs, f), p) == Map(Filter(xs, q), f)
    decreases |xs|
  {
    if |xs| > 0 {
      var init := xs[..|xs| - 1];
      var x := xs[|xs| - 1];
      assert forall i :: 0 <= i < |init| ==> init[i] == xs[i];
      FilterMap(init, f, p, q);
      var ys := Map(xs, f);
      assert ys[..|ys| - 1] == Map(init, f);
      assert ys[|ys| - 1] == f(x);
      assert Filter(ys, p) == Filter(Map(init, f), p) + (if p(f(x)) then [f(x)] else []);
      var tail: seq<T> := if q(x) then [x] else [];
      assert Filter(xs, q) == Filter(init, q) + tail;
      MapAppend(Filter(init, q), tail, f);
    }
  }

  /** Concatenating over images. */
  lemma {:induction false} FlatMapOfMap<T, U, V>(xs: seq<T>, f: T -> U, g: U -> seq<V>, h: T -> seq<V>)
    requires forall x :: g(f(x)) == h(x)
    ensures FlatMap(Map(xs, f), g) == FlatMap(xs, h)
    decreases |xs|
  {
    if |xs| > 0 {
      var init := xs[..|xs| - 1];
      FlatMapOfMap(init, f, g, h);
      assert Map(xs, f)[..|xs| - 1] == Map(init, f);
    }
  }

  /** `xs.some(p)`. */
  predicate Any<T>(xs: seq<T>, p: T -> bool)
    decreases |xs|
  {
    |xs| > 0 && (Any(xs[..|xs| - 1], p) || p(xs[|xs| - 1]))
  }

  lemma {:induction false} AnyMember<T>(xs: seq<T>, p: T -> bool)
    ensures Any(xs, p) <==> exists i :: 0 <= i < |xs| && p(xs[i])
    decreases |xs|
  {
    if |xs| > 0 {
      var init := xs[..|xs| - 1];
      AnyMember(init, p);
      if Any(init, p) {
        var i :| 0 <= i < |init| && p(init[i]);
        assert xs[i] == init[i];
      }
      if exists i :: 0 <= i < |xs| && p(xs[i]) {
        var i :| 0 <= i < |xs| && p(xs[i]);
        if i < |init| {
          assert init[i] == xs[i];
        }
      }
    }
  }

  /** Mapping twice is mapping the composition. */
  lemma MapOfMap<T, U, V>(xs: seq<T>, f: T -> U, g: U -> V, h: T -> V)
    requires forall x :: g(f(x)) == h(x)
    ensures Map(Map(xs, f), g) == Map(xs, h)
  {
  }
}
