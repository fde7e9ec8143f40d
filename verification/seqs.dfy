/**
 * The array operations the dashboards and the marketplace page are built
 * from: `reduce` into a sum, `filter(...).length`, `filter`, and the
 * stable `sort` of ECMAScript arrays, here as sorting by an integer key.
 */
module Seqs {

  /** `xs.reduce((sum, x) => sum + f(x), 0)`, folded from the left as `reduce` does. */
  function SumBy<T>(xs: seq<T>, f: T -> real): real
    decreases |xs|
  {
    if xs == [] then 0.0 else SumBy(xs[..|xs| - 1], f) + f(xs[|xs| - 1])
  }

  /** The integer variant of `SumBy`. */
  function SumByInt<T>(xs: seq<T>, f: T -> int): int
    decreases |xs|
  {
    if xs == [] then 0 else SumByInt(xs[..|xs| - 1], f) + f(xs[|xs| - 1])
  }

  /** `xs.filter(p).length`. */
  function CountWhere<T>(xs: seq<T>, p: T -> bool): (n: nat)
    ensures n <= |xs|
    ensures n == |xs| <==> forall i :: 0 <= i < |xs| ==> p(xs[i])
    ensures n == 0 <==> forall i :: 0 <= i < |xs| ==> !p(xs[i])
    decreases |xs|
  {
    if xs == [] then 0
    else
      var init := xs[..|xs| - 1];
      assert forall i :: 0 <= i < |init| ==> init[i] == xs[i];
      CountWhere(init, p) + (if p(xs[|xs| - 1]) then 1 else 0)
  }

  /** Sums split over concatenation: the total of a table grown by some rows is the old total plus theirs. */
  lemma {:induction false} SumByAppend<T>(xs: seq<T>, ys: seq<T>, f: T -> real)
    ensures SumBy(xs + ys, f) == SumBy(xs, f) + SumBy(ys, f)
    decreases |ys|
  {
    if ys == [] {
      assert xs + ys == xs;
    } else {
      var zs := xs + ys;
      assert zs[..|zs| - 1] == xs + ys[..|ys| - 1];
      SumByAppend(xs, ys[..|ys| - 1], f);
    }
  }

  lemma {:induction false} SumByIntAppend<T>(xs: seq<T>, ys: seq<T>, f: T -> int)
    ensures SumByInt(xs + ys, f) == SumByInt(xs, f) + SumByInt(ys, f)
    decreases |ys|
  {
    if ys == [] {
      assert xs + ys == xs;
    } else {
      var zs := xs + ys;
      assert zs[..|zs| - 1] == xs + ys[..|ys| - 1];
      SumByIntAppend(xs, ys[..|ys| - 1], f);
    }
  }

  lemma {:induction false} CountWhereAppend<T>(xs: seq<T>, ys: seq<T>, p: T -> bool)
    ensures CountWhere(xs + ys, p) == CountWhere(xs, p) + CountWhere(ys, p)
    decreases |ys|
  {
    if ys == [] {
      assert xs + ys == xs;
    } else {
      var zs := xs + ys;
      assert zs[..|zs| - 1] == xs + ys[..|ys| - 1];
      CountWhereAppend(xs, ys[..|ys| - 1], p);
    }
  }

  /** A sum of non-negative terms is non-negative. */
  lemma {:induction false} SumByNonNegative<T>(xs: seq<T>, f: T -> real)
    requires forall i :: 0 <= i < |xs| ==> f(xs[i]) >= 0.0
    ensures SumBy(xs, f) >= 0.0
    decreases |xs|
  {
    if xs != [] {
      var init := xs[..|xs| - 1];
      assert forall i :: 0 <= i < |init| ==> init[i] == xs[i];
      SumByNonNegative(init, f);
    }
  }

  /** Termwise domination carries over to the sums. */
  lemma {:induction false} SumByMonotone<T>(xs: seq<T>, f: T -> real, g: T -> real)
    requires forall i :: 0 <= i < |xs| ==> f(xs[i]) <= g(xs[i])
    ensures SumBy(xs, f) <= SumBy(xs, g)
    decreases |xs|
  {
    if xs != [] {
      var init := xs[..|xs| - 1];
      assert forall i :: 0 <= i < |init| ==> init[i] == xs[i];
      SumByMonotone(init, f, g);
    }
  }

  /** The sum of differences is the difference of the sums. */
  lemma {:induction false} SumByDifference<T>(xs: seq<T>, f: T -> real, g: T -> real, h: T -> real)
    requires forall i :: 0 <= i < |xs| ==> h(xs[i]) == f(xs[i]) - g(xs[i])
    ensures SumBy(xs, h) == SumBy(xs, f) - SumBy(xs, g)
    decreases |xs|
  {
    if xs != [] {
      var init := xs[..|xs| - 1];
      assert forall i :: 0 <= i < |init| ==> init[i] == xs[i];
      SumByDifference(init, f, g, h);
    }
  }

  /** `xs.filter(p)`: keeps exactly the elements satisfying `p`, in their order, with their multiplicities. */
  function Filter<T>(xs: seq<T>, p: T -> bool): (r: seq<T>)
    ensures forall i :: 0 <= i < |r| ==> p(r[i])
    ensures forall i :: 0 <= i < |xs| && p(xs[i]) ==> xs[i] in r
    ensures multiset(r) <= multiset(xs)
    ensures |r| <= |xs|
    decreases |xs|
  {
    if xs == [] then []
    else
      var rest := Filter(xs[1..], p);
      assert multiset(xs) == multiset{xs[0]} + multiset(xs[1..]) by {
        assert xs == [xs[0]] + xs[1..];
      }
      assert forall i :: 1 <= i < |xs| ==> xs[i] == xs[1..][i - 1];
      if p(xs[0]) then [xs[0]] + rest else rest
  }

  /** Every element a filter keeps comes from its input. */
  lemma FilterMembers<T>(xs: seq<T>, p: T -> bool)
    ensures forall i :: 0 <= i < |Filter(xs, p)| ==> Filter(xs, p)[i] in xs
  {
    var r := Filter(xs, p);
    forall i | 0 <= i < |r| ensures r[i] in xs {
      assert r[i] in multiset(r);
    }
  }

  /** A filter whose predicate holds everywhere keeps the whole list, in order. */
  lemma {:induction false} FilterAll<T>(xs: seq<T>, p: T -> bool)
    requires forall i :: 0 <= i < |xs| ==> p(xs[i])
    ensures Filter(xs, p) == xs
    decreases |xs|
  {
    if xs != [] {
      FilterAll(xs[1..], p);
      assert xs == [xs[0]] + xs[1..];
    }
  }

  /** A multiset of kept elements: every copy of an element satisfying `p` survives. */
  lemma {:induction false} FilterMultiplicity<T>(xs: seq<T>, p: T -> bool, x: T)
    requires p(x)
    ensures multiset(Filter(xs, p))[x] == multiset(xs)[x]
    decreases |xs|
  {
    if xs != [] {
      FilterMultiplicity(xs[1..], p, x);
      assert xs == [xs[0]] + xs[1..];
    }
  }

  /** A filter over two lists joined is the two filters joined: kept elements stay in input order. */
  lemma {:induction false} FilterAppend<T>(xs: seq<T>, ys: seq<T>, p: T -> bool)
    ensures Filter(xs + ys, p) == Filter(xs, p) + Filter(ys, p)
    decreases |xs|
  {
    if xs == [] {
      assert xs + ys == ys;
    } else {
      assert (xs + ys)[1..] == xs[1..] + ys;
      FilterAppend(xs[1..], ys, p);
    }
  }

  /** Filtering a list with a given head: the head is kept or dropped, then the tail is filtered. */
  lemma FilterCons<T>(x: T, xs: seq<T>, p: T -> bool)
    ensures Filter([x] + xs, p) == (if p(x) then [x] else []) + Filter(xs, p)
  {
    assert ([x] + xs)[1..] == xs;
  }

  /** A one-element list keeps its element exactly when the predicate holds of it. */
  lemma FilterSingleton<T>(x: T, p: T -> bool)
    ensures Filter([x], p) == if p(x) then [x] else []
  {
    assert [x][1..] == [];
  }

  ghost predicate SortedBy<T>(s: seq<T>, key: T -> int) {
    forall i, j :: 0 <= i < j < |s| ==> key(s[i]) <= key(s[j])
  }

  /** Inserts `x` before the first element of larger-or-equal key, so that `x`, which came first, stays ahead of its equals. */
  function InsertByKey<T>(x: T, s: seq<T>, key: T -> int): (r: seq<T>)
    requires SortedBy(s, key)
    ensures SortedBy(r, key)
    ensures multiset(r) == multiset(s) + multiset{x}
    ensures |r| == |s| + 1
    decreases |s|
  {
    if s == [] || key(x) <= key(s[0]) then [x] + s
    else
      var rest := InsertByKey(x, s[1..], key);
      HeadBelowInsert(x, s, rest, key);
      SortedCons(s[0], rest, key);
      assert multiset(s) == multiset{s[0]} + multiset(s[1..]) by {
        assert s == [s[0]] + s[1..];
      }
      [s[0]] + rest
  }

  /** The head of a sorted list is at most every element of `rest`, when `rest` holds the tail and an element of larger key. */
  lemma HeadBelowInsert<T>(x: T, s: seq<T>, rest: seq<T>, key: T -> int)
    requires SortedBy(s, key) && s != [] && key(s[0]) < key(x)
    requires multiset(rest) == multiset(s[1..]) + multiset{x}
    ensures forall i :: 0 <= i < |rest| ==> key(s[0]) <= key(rest[i])
  {
    forall i | 0 <= i < |rest| ensures key(s[0]) <= key(rest[i]) {
      assert rest[i] in multiset(s[1..]) + multiset{x};
      if rest[i] != x {
        var k :| 0 <= k < |s[1..]| && s[1..][k] == rest[i];
        assert s[k + 1] == rest[i];
      }
    }
  }

  /** A sorted list stays sorted under a head no larger than any of its elements. */
  lemma SortedCons<T>(h: T, rest: seq<T>, key: T -> int)
    requires SortedBy(rest, key)
    requires forall i :: 0 <= i < |rest| ==> key(h) <= key(rest[i])
    ensures SortedBy([h] + rest, key)
  {
    var r := [h] + rest;
    forall i, j | 0 <= i < j < |r| ensures key(r[i]) <= key(r[j]) {
      assert r[j] == rest[j - 1];
      if i > 0 {
        assert r[i] == rest[i - 1];
      }
    }
  }

  /** The stable sort of `Array.prototype.sort` for a comparator of the form `key(a) - key(b)`. */
  function SortByKey<T>(xs: seq<T>, key: T -> int): (r: seq<T>)
    ensures SortedBy(r, key)
    ensures multiset(r) == multiset(xs)
    ensures |r| == |xs|
    decreases |xs|
  {
    if xs == [] then []
    else
      assert xs == [xs[0]] + xs[1..];
      InsertByKey(xs[0], SortByKey(xs[1..], key), key)
  }

  /** When every key is the same, nothing moves: the input order is kept. */
  lemma {:induction false} SortByConstantKey<T>(xs: seq<T>, key: T -> int, k: int)
    requires forall i :: 0 <= i < |xs| ==> key(xs[i]) == k
    ensures SortByKey(xs, key) == xs
    decreases |xs|
  {
    if xs != [] {
      SortByConstantKey(xs[1..], key, k);
      assert xs == [xs[0]] + xs[1..];
    }
  }

  /** Holds of the elements whose key is `k`. */
  function KeyIs<T>(key: T -> int, k: int): T -> bool {
    x => key(x) == k
  }

  /** Putting a head of smaller key than `x` in front of two lists keeps the relation between their key-`k` filters. */
  lemma FilterPastSmallerHead<T>(x: T, h: T, rest: seq<T>, tail: seq<T>, key: T -> int, k: int)
    requires key(h) < key(x)
    requires Filter(rest, KeyIs(key, k)) == (if key(x) == k then [x] else []) + Filter(tail, KeyIs(key, k))
    ensures Filter([h] + rest, KeyIs(key, k)) == (if key(x) == k then [x] else []) + Filter([h] + tail, KeyIs(key, k))
  {
    var p := KeyIs(key, k);
    FilterCons(h, rest, p);
    FilterCons(h, tail, p);
    if key(x) == k {
      // `h` has a smaller key than `x`, so it is dropped on both sides
      assert !p(h);
    } else {
      assert Filter(rest, p) == [] + Filter(tail, p) == Filter(tail, p);
    }
  }

  /** Inserting `x` puts it ahead of every element of equal key, and moves no two equal-key elements past each other. */
  lemma {:induction false} InsertByKeyStable<T>(x: T, s: seq<T>, key: T -> int, k: int)
    requires SortedBy(s, key)
    ensures Filter(InsertByKey(x, s, key), KeyIs(key, k)) == (if key(x) == k then [x] else []) + Filter(s, KeyIs(key, k))
    decreases |s|
  {
    if s == [] || key(x) <= key(s[0]) {
      assert InsertByKey(x, s, key) == [x] + s;
      FilterCons(x, s, KeyIs(key, k));
    } else {
      assert SortedBy(s[1..], key);
      InsertByKeyStable(x, s[1..], key, k);
      assert InsertByKey(x, s, key) == [s[0]] + InsertByKey(x, s[1..], key);
      FilterPastSmallerHead(x, s[0], InsertByKey(x, s[1..], key), s[1..], key, k);
      assert [s[0]] + s[1..] == s;
    }
  }

  /**
   * The sort is stable: for every key value, the elements with that key
   * come out in the order they went in.
   */
  lemma {:induction false} SortByKeyStable<T>(xs: seq<T>, key: T -> int, k: int)
    ensures Filter(SortByKey(xs, key), KeyIs(key, k)) == Filter(xs, KeyIs(key, k))
    decreases |xs|
  {
    if xs != [] {
      SortByKeyStable(xs[1..], key, k);
      InsertByKeyStable(xs[0], SortByKey(xs[1..], key), key, k);
    }
  }

  /** A reordering keeps every element's properties, and keeps every element. */
  lemma {:induction false} PermutationPreserves<T>(a: seq<T>, b: seq<T>, p: T -> bool)
    requires multiset(a) == multiset(b)
    requires forall i :: 0 <= i < |a| ==> p(a[i])
    ensures forall i :: 0 <= i < |b| ==> p(b[i]) && b[i] in a
    ensures forall i :: 0 <= i < |a| ==> a[i] in b
  {
    forall i | 0 <= i < |b| ensures p(b[i]) && b[i] in a {
      assert b[i] in multiset(a);
    }
    forall i | 0 <= i < |a| ensures a[i] in b {
      assert a[i] in multiset(b);
    }
  }
}
