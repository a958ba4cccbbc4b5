/** Folds over sequences: filtering, counting, summing, stable sorting and the
    JavaScript `slice(0, n)` used to cut reports down to a limit. */
module Seqs {

  /** The elements of `xs` that satisfy `p`, in their original order. */
  function Filter<T(!new)>(xs: seq<T>, p: T -> bool): (r: seq<T>)
    ensures |r| <= |xs|
    ensures forall x :: x in r <==> x in xs && p(x)
    ensures forall i :: 0 <= i < |r| ==> p(r[i])
  {
    if xs == [] then []
    else if p(xs[0]) then [xs[0]] + Filter(xs[1..], p)
    else Filter(xs[1..], p)
  }

  /** The number of elements of `xs` that satisfy `p`. */
  function Count<T(!new)>(xs: seq<T>, p: T -> bool): nat
  {
    |Filter(xs, p)|
  }

  /** The sum of `f` over `xs`. */
  function SumBy<T>(xs: seq<T>, f: T -> nat): nat
  {
    if xs == [] then 0 else f(xs[0]) + SumBy(xs[1..], f)
  }

  lemma {:induction false} FilterAppend<T(!new)>(a: seq<T>, b: seq<T>, p: T -> bool)
    ensures Filter(a + b, p) == Filter(a, p) + Filter(b, p)
  {
    if a == [] {
      assert a + b == b;
    } else {
      assert (a + b)[1..] == a[1..] + b;
      FilterAppend(a[1..], b, p);
    }
  }

  lemma {:induction false} SumAppend<T>(a: seq<T>, b: seq<T>, f: T -> nat)
    ensures SumBy(a + b, f) == SumBy(a, f) + SumBy(b, f)
  {
    if a == [] {
      assert a + b == b;
    } else {
      assert (a + b)[1..] == a[1..] + b;
      SumAppend(a[1..], b, f);
    }
  }

  /** Filtering with a predicate that nothing in `xs` satisfies leaves nothing. */
  lemma {:induction false} FilterNone<T(!new)>(xs: seq<T>, p: T -> bool)
    requires forall i :: 0 <= i < |xs| ==> !p(xs[i])
    ensures Filter(xs, p) == []
  {
    if xs != [] {
      FilterNone(xs[1..], p);
    }
  }

  /** Filtering with a predicate that everything in `xs` satisfies keeps all of it. */
  lemma {:induction false} FilterAll<T(!new)>(xs: seq<T>, p: T -> bool)
    requires forall i :: 0 <= i < |xs| ==> p(xs[i])
    ensures Filter(xs, p) == xs
  {
    if xs != [] {
      FilterAll(xs[1..], p);
    }
  }

  /** Two predicates that never hold together select at most `|xs|` elements between them. */
  lemma {:induction false} CountDisjoint<T(!new)>(xs: seq<T>, p: T -> bool, q: T -> bool)
    requires forall x :: !(p(x) && q(x))
    ensures Count(xs, p) + Count(xs, q) <= |xs|
  {
    if xs != [] {
      CountDisjoint(xs[1..], p, q);
    }
  }

  /** A stronger predicate selects no more elements than a weaker one. */
  lemma {:induction false} CountMono<T(!new)>(xs: seq<T>, p: T -> bool, q: T -> bool)
    requires forall x :: p(x) ==> q(x)
    ensures Count(xs, p) <= Count(xs, q)
  {
    if xs != [] {
      CountMono(xs[1..], p, q);
    }
  }

  /** A stronger predicate selects no larger a sum than a weaker one. */
  lemma {:induction false} SumMono<T(!new)>(xs: seq<T>, p: T -> bool, q: T -> bool, f: T -> nat)
    requires forall x :: p(x) ==> q(x)
    ensures SumBy(Filter(xs, p), f) <= SumBy(Filter(xs, q), f)
  {
    if xs != [] {
      SumMono(xs[1..], p, q, f);
    }
  }

  /** Splitting a filter into two disjoint parts splits its count. */
  lemma {:induction false} CountSplit<T(!new)>(xs: seq<T>, p: T -> bool, q: T -> bool, r: T -> bool)
    requires forall x :: r(x) == (p(x) || q(x))
    requires forall x :: !(p(x) && q(x))
    ensures Count(xs, p) + Count(xs, q) == Count(xs, r)
  {
    if xs != [] {
      CountSplit(xs[1..], p, q, r);
    }
  }

  /** Filtering twice is filtering once by the conjunction. */
  lemma {:induction false} FilterBoth<T(!new)>(xs: seq<T>, p: T -> bool, q: T -> bool, r: T -> bool)
    requires forall x :: r(x) == (p(x) && q(x))
    ensures Filter(Filter(xs, p), q) == Filter(xs, r)
  {
    if xs != [] {
      FilterBoth(xs[1..], p, q, r);
    }
  }

  /** Appending one element adds its contribution to a filtered sum. */
  lemma SumFilterSnoc<T(!new)>(xs: seq<T>, x: T, p: T -> bool, f: T -> nat)
    ensures SumBy(Filter(xs + [x], p), f) == SumBy(Filter(xs, p), f) + (if p(x) then f(x) else 0)
  {
    FilterAppend(xs, [x], p);
    SumAppend(Filter(xs, p), Filter([x], p), f);
    assert Filter([x], p) == if p(x) then [x] else [];
  }

  lemma SplitAt<T>(b: seq<T>, k: nat)
    requires k < |b|
    ensures b == b[..k] + [b[k]] + b[k + 1..]
  {
  }

  /** Taking out the element at `k` leaves the rest of the multiset. */
  lemma RemoveAt<T>(b: seq<T>, k: nat)
    requires k < |b|
    ensures multiset(b[..k] + b[k + 1..]) == multiset(b) - multiset{b[k]}
  {
    SplitAt(b, k);
  }

  /** Taking out the element at `k` takes its contribution out of a filtered sum. */
  lemma SumFilterRemoveAt<T(!new)>(b: seq<T>, k: nat, p: T -> bool, f: T -> nat)
    requires k < |b|
    ensures SumBy(Filter(b, p), f) == SumBy(Filter(b[..k] + b[k + 1..], p), f) + (if p(b[k]) then f(b[k]) else 0)
  {
    var l, x, r := b[..k], b[k], b[k + 1..];
    SplitAt(b, k);
    SumFilterJoin(l, x, r, p, f);
  }

  lemma SumFilterJoin<T(!new)>(l: seq<T>, x: T, r: seq<T>, p: T -> bool, f: T -> nat)
    ensures SumBy(Filter(l + [x] + r, p), f) == SumBy(Filter(l + r, p), f) + (if p(x) then f(x) else 0)
  {
    FilterAppend(l + [x], r, p);
    SumAppend(Filter(l + [x], p), Filter(r, p), f);
    SumFilterSnoc(l, x, p, f);
    FilterAppend(l, r, p);
    SumAppend(Filter(l, p), Filter(r, p), f);
  }

  lemma SumFilterCons<T(!new)>(a: seq<T>, p: T -> bool, f: T -> nat)
    requires a != []
    ensures SumBy(Filter(a, p), f) == SumBy(Filter(a[1..], p), f) + (if p(a[0]) then f(a[0]) else 0)
  {
    if p(a[0]) {
      assert ([a[0]] + Filter(a[1..], p))[1..] == Filter(a[1..], p);
    }
  }

  /** Some position of `b` holds the first element of its permutation `a`; without both, the rest still match. */
  lemma MatchHead<T>(a: seq<T>, b: seq<T>) returns (k: nat)
    requires a != [] && multiset(a) == multiset(b)
    ensures k < |b| && b[k] == a[0]
    ensures multiset(a[1..]) == multiset(b[..k] + b[k + 1..])
  {
    assert a[0] in multiset(a);
    k :| 0 <= k < |b| && b[k] == a[0];
    assert multiset(a[1..]) == multiset(a) - multiset{a[0]} by {
      RemoveAt(a, 0);
      assert a[..0] + a[1..] == a[1..];
    }
    RemoveAt(b, k);
  }

  /** Filtered sums do not depend on the order of the elements. */
  lemma {:induction false} SumFilterPermutation<T(!new)>(a: seq<T>, b: seq<T>, p: T -> bool, f: T -> nat)
    requires multiset(a) == multiset(b)
    ensures SumBy(Filter(a, p), f) == SumBy(Filter(b, p), f)
    decreases |a|
  {
    if a == [] {
      assert |b| == |multiset(b)| == 0;
    } else {
      var k := MatchHead(a, b);
      SumFilterPermutation(a[1..], b[..k] + b[k + 1..], p, f);
      SumFilterCons(a, p, f);
      SumFilterRemoveAt(b, k, p, f);
    }
  }

  /** No element occurs twice. */
  predicate Distinct<T(==)>(xs: seq<T>)
  {
    forall i, j :: 0 <= i < j < |xs| ==> xs[i] != xs[j]
  }

  lemma {:induction false} DistinctOccursOnce<T>(xs: seq<T>, v: T)
    requires Distinct(xs)
    ensures multiset(xs)[v] <= 1
  {
    if xs != [] {
      assert xs == [xs[0]] + xs[1..];
      assert Distinct(xs[1..]);
      DistinctOccursOnce(xs[1..], v);
      if v == xs[0] {
        assert v !in xs[1..];
      }
    }
  }

  /** A permutation of a sequence without repeats has none either. */
  lemma DistinctPermutation<T>(xs: seq<T>, ys: seq<T>)
    requires Distinct(xs)
    requires multiset(xs) == multiset(ys)
    ensures Distinct(ys)
  {
    forall i, j | 0 <= i < j < |ys|
      ensures ys[i] != ys[j]
    {
      if ys[i] == ys[j] {
        var v := ys[i];
        assert ys == ys[..j] + [ys[j]] + ys[j + 1..];
        assert v in ys[..j];
        assert multiset(ys)[v] >= 2;
        DistinctOccursOnce(xs, v);
      }
    }
  }

  /** No two elements share a key. */
  predicate DistinctBy<T>(xs: seq<T>, key: T -> int)
  {
    forall i, j :: 0 <= i < j < |xs| ==> key(xs[i]) != key(xs[j])
  }

  lemma {:induction false} FilterDistinctBy<T(!new)>(xs: seq<T>, p: T -> bool, key: T -> int)
    requires DistinctBy(xs, key)
    ensures DistinctBy(Filter(xs, p), key)
  {
    if xs != [] {
      assert DistinctBy(xs[1..], key);
      FilterDistinctBy(xs[1..], p, key);
      forall y | y in Filter(xs[1..], p)
        ensures key(y) != key(xs[0])
      {
        var m :| 0 <= m < |xs[1..]| && xs[1..][m] == y;
        assert xs[m + 1] == y;
      }
    }
  }

  /** A permutation of a sequence whose keys are distinct has distinct keys too. */
  lemma PermutationDistinctBy<T>(xs: seq<T>, ys: seq<T>, key: T -> int)
    requires DistinctBy(xs, key)
    requires multiset(xs) == multiset(ys)
    ensures DistinctBy(ys, key)
  {
    DistinctPermutation(xs, ys);
    forall i, j | 0 <= i < j < |ys|
      ensures key(ys[i]) != key(ys[j])
    {
      assert ys[i] in multiset(xs) && ys[j] in multiset(xs);
      var a :| 0 <= a < |xs| && xs[a] == ys[i];
      var b :| 0 <= b < |xs| && xs[b] == ys[j];
    }
  }

  /** `key` never decreases along `xs`. */
  predicate SortedBy<T>(xs: seq<T>, key: T -> int)
  {
    forall i, j :: 0 <= i < j < |xs| ==> key(xs[i]) <= key(xs[j])
  }

  /** Inserts `x` in front of the first element whose key is not smaller, so
      that among equal keys the inserted element comes first. */
  function InsertBy<T>(x: T, xs: seq<T>, key: T -> int): (r: seq<T>)
    requires SortedBy(xs, key)
    ensures SortedBy(r, key)
    ensures multiset(r) == multiset(xs) + multiset{x}
    ensures |r| == |xs| + 1
  {
    if xs == [] then [x]
    else if key(x) <= key(xs[0]) then [x] + xs
    else
      var rest := InsertBy(x, xs[1..], key);
      assert multiset(rest) == multiset(xs[1..] + [x]);
      BoundCarries(rest, xs[1..] + [x], key, key(xs[0]));
      assert xs == [xs[0]] + xs[1..];
      [xs[0]] + rest
  }

  /** A lower bound on the keys of `zs` holds for a permutation of it. */
  lemma BoundCarries<T>(ys: seq<T>, zs: seq<T>, key: T -> int, lo: int)
    requires multiset(ys) == multiset(zs)
    requires forall k :: 0 <= k < |zs| ==> lo <= key(zs[k])
    ensures forall k :: 0 <= k < |ys| ==> lo <= key(ys[k])
  {
    forall k | 0 <= k < |ys|
      ensures lo <= key(ys[k])
    {
      assert ys[k] in multiset(zs);
      var m :| 0 <= m < |zs| && zs[m] == ys[k];
    }
  }

  /** Stable insertion sort by ascending `key`: a sorted permutation of `xs`. */
  function SortBy<T>(xs: seq<T>, key: T -> int): (r: seq<T>)
    ensures SortedBy(r, key)
    ensures multiset(r) == multiset(xs)
    ensures |r| == |xs|
  {
    if xs == [] then []
    else
      assert xs == [xs[0]] + xs[1..];
      InsertBy(xs[0], SortBy(xs[1..], key), key)
  }

  /** The end index JavaScript's `slice(0, limit)` uses on a list of length `n`:
      a negative limit counts back from the end. */
  function SliceEnd(n: nat, limit: int): (e: nat)
    ensures e <= n
    ensures 0 <= limit ==> e == if limit < n then limit else n
    ensures limit < 0 ==> e == if n + limit < 0 then 0 else n + limit
  {
    if limit >= 0 then (if limit < n then limit else n)
    else if n + limit < 0 then 0
    else n + limit
  }

  /** `xs.slice(0, limit)`. */
  function Slice<T>(xs: seq<T>, limit: int): (r: seq<T>)
    ensures |r| <= |xs|
    ensures 0 <= limit ==> |r| == if limit < |xs| then limit else |xs|
    ensures r == xs[..|r|]
  {
    xs[..SliceEnd(|xs|, limit)]
  }

  /** The prefix one longer is the prefix and the next element. */
  lemma TakeOneMore<T>(xs: seq<T>, i: nat)
    requires i < |xs|
    ensures xs[..i + 1] == xs[..i] + [xs[i]]
  {
  }

  lemma TakeAll<T>(xs: seq<T>)
    ensures xs[..|xs|] == xs
  {
  }

  /** Neighbours of a sorted sequence are in order. */
  lemma SortedNeighbours<T>(xs: seq<T>, i: nat, key: T -> int)
    requires SortedBy(xs, key)
    requires 0 < i < |xs|
    ensures key(xs[..i][i - 1]) <= key(xs[i])
  {
  }

  /** The first `limit` elements of `xs` by ascending key, taken the way an
      array slice takes them; ties keep their order in `xs`. */
  function TopBy<T>(xs: seq<T>, key: T -> int, limit: int): (r: seq<T>)
    ensures |r| == SliceEnd(|xs|, limit)
    ensures SortedBy(r, key)
    ensures multiset(r) <= multiset(xs)
    ensures forall x, y :: x in r && y in multiset(xs) - multiset(r) ==> key(x) <= key(y)
    ensures r == SortBy(xs, key)[..|r|]
  {
    var sorted := SortBy(xs, key);
    var r := Slice(sorted, limit);
    SortedPrefix(sorted, |r|, key);
    r
  }

  /** What a prefix of a sorted sequence keeps. */
  lemma SortedPrefix<T>(xs: seq<T>, n: nat, key: T -> int)
    requires n <= |xs|
    requires SortedBy(xs, key)
    ensures SortedBy(xs[..n], key)
    ensures multiset(xs[..n]) <= multiset(xs)
    ensures forall x, y :: x in xs[..n] && y in multiset(xs) - multiset(xs[..n]) ==> key(x) <= key(y)
  {
    PrefixDominates(xs, n, key);
    assert xs == xs[..n] + xs[n..];
    assert multiset(xs) == multiset(xs[..n]) + multiset(xs[n..]);
  }

  /** In a sorted sequence every element of a prefix has a key no larger than
      any element left out of it. */
  lemma PrefixDominates<T>(xs: seq<T>, n: nat, key: T -> int)
    requires n <= |xs|
    requires SortedBy(xs, key)
    ensures forall x, y :: x in xs[..n] && y in multiset(xs) - multiset(xs[..n]) ==> key(x) <= key(y)
  {
    assert xs == xs[..n] + xs[n..];
    forall x, y | x in xs[..n] && y in multiset(xs) - multiset(xs[..n])
      ensures key(x) <= key(y)
    {
      assert multiset(xs) == multiset(xs[..n]) + multiset(xs[n..]);
      assert y in xs[n..];
      var i :| 0 <= i < n && xs[..n][i] == x;
      var j :| 0 <= j < |xs[n..]| && xs[n..][j] == y;
      assert xs[i] == x && xs[n + j] == y;
    }
  }

  /** A prefix of a sorted sequence is sorted. */
  lemma PrefixSorted<T>(xs: seq<T>, n: nat, key: T -> int)
    requires n <= |xs|
    requires SortedBy(xs, key)
    ensures SortedBy(xs[..n], key)
  {
  }
}
