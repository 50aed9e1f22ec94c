/** Sorting rows by a key, one insertion at a time.  Rows with equal keys may come in any
    order among themselves. */
module Ordering {
  import opened Common

  /** `less` compares by some key: it is asymmetric, and not being after is transitive. */
  ghost predicate WeakOrder<T(!new)>(less: (T, T) -> bool) {
    && (forall a, b :: less(a, b) ==> !less(b, a))
    && (forall a, b, c :: NotAfter(less, a, b) && NotAfter(less, b, c) ==> NotAfter(less, a, c))
  }

  predicate NotAfter<T>(less: (T, T) -> bool, a: T, b: T) {
    !less(b, a)
  }

  ghost predicate InOrder<T>(xs: seq<T>, less: (T, T) -> bool) {
    forall i, j :: 0 <= i < j < |xs| ==> NotAfter(less, xs[i], xs[j])
  }

  method SortBy<T(!new)>(xs: seq<T>, less: (T, T) -> bool) returns (sorted: seq<T>)
    requires WeakOrder(less)
    ensures multiset(sorted) == multiset(xs) && InOrder(sorted, less)
  {
    hide WeakOrder, InOrder;
    sorted := [];
    EmptyInOrder(less);
    for n := 0 to |xs|
      invariant multiset(sorted) == multiset(xs[..n]) && InOrder(sorted, less)
    {
      assert xs[..n + 1] == xs[..n] + [xs[n]];
      sorted := Insert(sorted, xs[n], less);
    }
    assert xs[..|xs|] == xs;
  }

  /** Walk left past everything that comes after `x`, and put it there. */
  method Insert<T(!new)>(sorted: seq<T>, x: T, less: (T, T) -> bool) returns (longer: seq<T>)
    requires WeakOrder(less) && InOrder(sorted, less)
    ensures multiset(longer) == multiset(sorted) + multiset{x} && InOrder(longer, less)
  {
    var i := |sorted|;
    while i > 0 && less(x, sorted[i - 1])
      invariant 0 <= i <= |sorted|
      invariant forall k :: i <= k < |sorted| ==> NotAfter(less, x, sorted[k])
    {
      i := i - 1;
    }
    Inserted(sorted, i, x, less);
    assert sorted == sorted[..i] + sorted[i..];
    longer := sorted[..i] + [x] + sorted[i..];
  }

  lemma EmptyInOrder<T>(less: (T, T) -> bool)
    ensures InOrder([], less)
  {}

  lemma Inserted<T(!new)>(sorted: seq<T>, i: nat, x: T, less: (T, T) -> bool)
    requires WeakOrder(less) && InOrder(sorted, less) && i <= |sorted|
    requires forall k :: i <= k < |sorted| ==> NotAfter(less, x, sorted[k])
    requires i > 0 ==> NotAfter(less, sorted[i - 1], x)
    ensures InOrder(sorted[..i] + [x] + sorted[i..], less)
  {
    hide NotAfter;
    forall k | 0 <= k < i ensures NotAfter(less, sorted[k], x) {
      assert k < i - 1 ==> NotAfter(less, sorted[k], sorted[i - 1]);
    }
    hide WeakOrder;
  }

  /** A sorted list still lists the same set. */
  lemma SortedEnumerates<T(!new)>(xs: seq<T>, sorted: seq<T>, s: set<T>)
    requires multiset(sorted) == multiset(xs) && Enumerates(xs, s)
    ensures Enumerates(sorted, s)
  {
    forall x ensures x in sorted <==> x in s {
      assert x in sorted <==> x in multiset(sorted);
      assert x in xs <==> x in multiset(xs);
    }
    NoDuplicatesOnce(xs);
    forall i, j | 0 <= i < j < |sorted| ensures sorted[i] == sorted[j] ==> multiset(sorted)[sorted[i]] >= 2 {
      if sorted[i] == sorted[j] { TwiceCounts(sorted, i, j); }
    }
  }

  lemma {:induction false} NoDuplicatesOnce<T(!new)>(xs: seq<T>)
    requires NoDuplicates(xs)
    ensures forall x :: multiset(xs)[x] <= 1
  {
    if xs == [] {
    } else {
      assert xs == [xs[0]] + xs[1..];
      NoDuplicatesOnce(xs[1..]);
      assert xs[0] !in xs[1..];
    }
  }

  lemma TwiceCounts<T(!new)>(xs: seq<T>, i: nat, j: nat)
    requires i < j < |xs| && xs[i] == xs[j]
    ensures multiset(xs)[xs[i]] >= 2
  {
    assert xs == xs[..j] + [xs[j]] + xs[j + 1..];
    assert xs[..j][i] == xs[i];
    assert xs[i] in multiset(xs[..j]);
  }
}
