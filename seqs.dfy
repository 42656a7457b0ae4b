/** Generic sequence helpers: the comprehensions and list builders of the
    scaffolding scripts are written with these. The recursive definitions peel
    the LAST element, so that a loop over `xs[..i]` advances by one unfolding. */
module Seqs {

  /** Every element occurs once. */
  predicate NoDup<T(==)>(xs: seq<T>) {
    forall i, j :: 0 <= i < j < |xs| ==> xs[i] != xs[j]
  }

  /** `[x for x in xs if keep(x)]` */
  function Filter<T>(xs: seq<T>, keep: T -> bool): (r: seq<T>)
    ensures |r| <= |xs|
    ensures forall i :: 0 <= i < |r| ==> r[i] in xs && keep(r[i])
    ensures forall i :: 0 <= i < |xs| && keep(xs[i]) ==> xs[i] in r
  {
    if xs == [] then []
    else Filter(xs[..|xs| - 1], keep) + (if keep(xs[|xs| - 1]) then [xs[|xs| - 1]] else [])
  }

  /** `[f(x) for x in xs]` */
  function Map<A, B>(xs: seq<A>, f: A -> B): (r: seq<B>)
    ensures |r| == |xs|
    ensures forall i :: 0 <= i < |xs| ==> r[i] == f(xs[i])
  {
    if xs == [] then [] else Map(xs[..|xs| - 1], f) + [f(xs[|xs| - 1])]
  }

  lemma FilterSnoc<T>(xs: seq<T>, x: T, keep: T -> bool)
    ensures Filter(xs + [x], keep) == Filter(xs, keep) + (if keep(x) then [x] else [])
  {
    assert (xs + [x])[..|xs|] == xs;
  }

  /** Filtering one element more of a prefix. */
  lemma FilterPrefix<T>(xs: seq<T>, i: nat, keep: T -> bool)
    requires i < |xs|
    ensures Filter(xs[..i + 1], keep) == Filter(xs[..i], keep) + (if keep(xs[i]) then [xs[i]] else [])
  {
    assert xs[..i + 1] == xs[..i] + [xs[i]];
    FilterSnoc(xs[..i], xs[i], keep);
  }

  lemma MapSnoc<A, B>(xs: seq<A>, x: A, f: A -> B)
    ensures Map(xs + [x], f) == Map(xs, f) + [f(x)]
  {
    assert (xs + [x])[..|xs|] == xs;
  }

  lemma {:induction false} FilterNoDup<T>(xs: seq<T>, keep: T -> bool)
    requires NoDup(xs)
    ensures NoDup(Filter(xs, keep))
  {
    if xs != [] {
      var init, last := xs[..|xs| - 1], xs[|xs| - 1];
      assert NoDup(init);
      FilterNoDup(init, keep);
      assert last !in init;
    }
  }

  /** Nothing passes a filter no element passes. */
  lemma {:induction false} FilterNone<T>(xs: seq<T>, keep: T -> bool)
    requires forall i :: 0 <= i < |xs| ==> !keep(xs[i])
    ensures Filter(xs, keep) == []
  {
    if xs != [] {
      FilterNone(xs[..|xs| - 1], keep);
    }
  }

  /** Mapping then filtering is filtering by the mapped test, then mapping. */
  lemma {:induction false} FilterMap<A, B>(xs: seq<A>, f: A -> B, keep: B -> bool, keepMapped: A -> bool)
    requires forall i :: 0 <= i < |xs| ==> keep(f(xs[i])) == keepMapped(xs[i])
    ensures Filter(Map(xs, f), keep) == Map(Filter(xs, keepMapped), f)
  {
    if xs != [] {
      var init, last := xs[..|xs| - 1], xs[|xs| - 1];
      FilterMap(init, f, keep, keepMapped);
      assert Map(xs, f)[..|xs| - 1] == Map(init, f);
      if keepMapped(last) {
        MapSnoc(Filter(init, keepMapped), last, f);
      }
    }
  }

  /** A duplicate-free sequence has as many elements as the set of its elements. */
  lemma {:induction false} NoDupCardinality<T>(xs: seq<T>, s: set<T>)
    requires NoDup(xs)
    requires forall x :: x in s <==> x in xs
    ensures |s| == |xs|
  {
    if xs != [] {
      var init, last := xs[..|xs| - 1], xs[|xs| - 1];
      assert xs == init + [last];
      assert NoDup(init);
      NoDupCardinality(init, s - {last});
    } else {
      assert s == {};
    }
  }

  /** Counting a filtered duplicate-free sequence counts the matching elements. */
  lemma FilterCardinality<T>(xs: seq<T>, keep: T -> bool, s: set<T>)
    requires NoDup(xs)
    requires forall x :: x in s <==> x in xs && keep(x)
    ensures |Filter(xs, keep)| == |s|
  {
    FilterNoDup(xs, keep);
    NoDupCardinality(Filter(xs, keep), s);
  }

  /** In a duplicate-free sequence every element occurs once. */
  lemma {:induction false} NoDupMultiplicity<T>(xs: seq<T>, x: T)
    requires NoDup(xs)
    ensures multiset(xs)[x] == if x in xs then 1 else 0
  {
    if xs != [] {
      var init, last := xs[..|xs| - 1], xs[|xs| - 1];
      assert xs == init + [last];
      assert NoDup(init);
      NoDupMultiplicity(init, x);
    }
  }

  /** A sequence in which nothing occurs twice is duplicate-free. */
  lemma {:induction false} AtMostOnceNoDup<T>(xs: seq<T>)
    requires forall x :: multiset(xs)[x] <= 1
    ensures NoDup(xs)
  {
    if xs != [] {
      var init, last := xs[..|xs| - 1], xs[|xs| - 1];
      assert xs == init + [last];
      assert forall x :: multiset(init)[x] <= multiset(xs)[x];
      AtMostOnceNoDup(init);
      assert multiset(init)[last] == 0;
      assert last !in init;
      forall i, j | 0 <= i < j < |xs| ensures xs[i] != xs[j] {
        if j < |xs| - 1 {
          assert xs[i] == init[i] && xs[j] == init[j];
        } else {
          assert xs[i] in init;
        }
      }
    }
  }

  /** A permutation of a duplicate-free sequence is duplicate-free. */
  lemma PermutationNoDup<T>(a: seq<T>, b: seq<T>)
    requires NoDup(b) && multiset(a) == multiset(b)
    ensures NoDup(a)
  {
    forall x ensures multiset(a)[x] <= 1 {
      NoDupMultiplicity(b, x);
    }
    AtMostOnceNoDup(a);
  }

  /** Two duplicate-free sequences with the same elements are permutations of each other. */
  lemma NoDupPermutation<T>(xs: seq<T>, ys: seq<T>)
    requires NoDup(xs) && NoDup(ys)
    requires forall x :: x in xs <==> x in ys
    ensures multiset(xs) == multiset(ys)
  {
    forall x ensures multiset(xs)[x] == multiset(ys)[x] {
      NoDupMultiplicity(xs, x);
      NoDupMultiplicity(ys, x);
    }
  }

  /** A property of every element survives a permutation. */
  lemma PermutationPreserves<T>(a: seq<T>, b: seq<T>, holds: T -> bool)
    requires multiset(a) == multiset(b)
    requires forall k :: 0 <= k < |b| ==> holds(b[k])
    ensures forall k :: 0 <= k < |a| ==> holds(a[k])
  {
    forall k | 0 <= k < |a| ensures holds(a[k]) {
      assert a[k] in multiset(b);
    }
  }
}
