/** Counting rows: loops that count, and sums over the groups of a partition. */
module Counting {
  import opened Common

  /** How many of the listed rows satisfy `p`. */
  method CountIf<T(==,!new)>(xs: seq<T>, p: T -> bool) returns (n: nat)
    requires NoDuplicates(xs)
    ensures n == |set x | x in xs && p(x)|
  {
    n := 0;
    for i := 0 to |xs|
      invariant n == |set x | x in xs[..i] && p(x)|
    {
      var before := set x | x in xs[..i] && p(x);
      var after := set x | x in xs[..i + 1] && p(x);
      assert xs[..i + 1] == xs[..i] + [xs[i]];
      assert xs[i] !in xs[..i];
      if p(xs[i]) {
        assert after == before + {xs[i]};
        n := n + 1;
      } else {
        assert after == before;
      }
    }
    assert xs[..|xs|] == xs;
  }

  /** The same count, over a set that `xs` lists. */
  method CountAmong<T(==,!new)>(xs: seq<T>, p: T -> bool, ghost whole: set<T>, ghost part: set<T>) returns (n: nat)
    requires Enumerates(xs, whole)
    requires forall x :: x in part <==> x in whole && p(x)
    ensures n == |part|
  {
    n := CountIf(xs, p);
    assert part == set x | x in xs && p(x);
  }

  /** Collect the rows of each key, in the order they come. */
  method GroupBy<K(==,!new), T(==,!new)>(xs: seq<T>, key: T -> K) returns (groups: map<K, seq<T>>)
    requires NoDuplicates(xs)
    ensures Grouped(groups, xs, key)
  {
    hide Grouped;
    groups := map[];
    assert Grouped(groups, xs[..0], key) by { NothingGrouped<K, T>(key); }
    for i := 0 to |xs|
      invariant Grouped(groups, xs[..i], key)
    {
      assert xs[..i + 1] == xs[..i] + [xs[i]];
      OneMoreGrouped(groups, xs[..i], key, xs[i]);
      var k := key(xs[i]);
      groups := groups[k := (if k in groups then groups[k] else []) + [xs[i]]];
    }
    assert xs[..|xs|] == xs;
  }

  ghost predicate Grouped<K(!new), T(!new)>(groups: map<K, seq<T>>, xs: seq<T>, key: T -> K) {
    && (forall k :: k in groups <==> exists x :: x in xs && key(x) == k)
    && (forall k :: k in groups ==> GroupOf(groups[k], xs, key, k))
  }

  lemma NothingGrouped<K(!new), T(!new)>(key: T -> K)
    ensures Grouped<K, T>(map[], [], key)
  {}

  lemma OneMoreGrouped<K(!new), T(!new)>(groups: map<K, seq<T>>, xs: seq<T>, key: T -> K, x: T)
    requires Grouped(groups, xs, key) && x !in xs
    ensures var k := key(x);
      Grouped(groups[k := (if k in groups then groups[k] else []) + [x]], xs + [x], key)
  {
    var k := key(x);
    var old_ := if k in groups then groups[k] else [];
    assert k !in groups ==> GroupOf([], xs, key, k);
    assert GroupOf(old_, xs, key, k);
    hide GroupOf;
    GroupExtended(old_, xs, key, k, x);
    var after := groups[k := old_ + [x]];
    forall j | j in after ensures GroupOf(after[j], xs + [x], key, j) {
      if j != k { GroupSkips(groups[j], xs, key, j, x); }
    }
    forall j ensures j in after <==> exists y :: y in xs + [x] && key(y) == j {
      if j in after && j != k {
        var y :| y in xs && key(y) == j;
        assert y in xs + [x];
      } else if j in after {
        assert x in xs + [x];
      }
    }
  }

  ghost predicate GroupOf<K(!new), T(!new)>(group: seq<T>, xs: seq<T>, key: T -> K, k: K) {
    NoDuplicates(group) && forall x :: x in group <==> x in xs && key(x) == k
  }

  lemma GroupExtended<K(!new), T(!new)>(group: seq<T>, xs: seq<T>, key: T -> K, k: K, x: T)
    requires GroupOf(group, xs, key, k) && key(x) == k && x !in xs
    ensures GroupOf(group + [x], xs + [x], key, k)
  {}

  lemma GroupSkips<K(!new), T(!new)>(group: seq<T>, xs: seq<T>, key: T -> K, k: K, x: T)
    requires GroupOf(group, xs, key, k) && key(x) != k
    ensures GroupOf(group, xs + [x], key, k)
  {}

  // ------------------------------------------------------------------ sums over groups

  ghost function Sum(ns: seq<nat>): nat {
    if ns == [] then 0 else ns[0] + Sum(ns[1..])
  }

  lemma {:induction false} SumAppend(ns: seq<nat>, n: nat)
    ensures Sum(ns + [n]) == Sum(ns) + n
  {
    if ns == [] {
      assert ns + [n] == [n];
    } else {
      assert (ns + [n])[1..] == ns[1..] + [n];
      SumAppend(ns[1..], n);
    }
  }

  ghost function Fibre<K(!new), T(!new)>(s: set<T>, key: T -> K, k: K): set<T> {
    set x | x in s && key(x) == k
  }

  ghost function FibreSizes<K(!new), T(!new)>(s: set<T>, key: T -> K, ks: seq<K>): seq<nat> {
    seq(|ks|, i requires 0 <= i < |ks| => |Fibre(s, key, ks[i])|)
  }

  ghost function Covered<K(!new), T(!new)>(s: set<T>, key: T -> K, ks: seq<K>): set<T> {
    set x | x in s && key(x) in ks
  }

  /** Distinct groups share no member, so their sizes add up to the number of members that
      fall into any of them. */
  lemma {:induction false} FibresPartition<K(!new), T(!new)>(s: set<T>, key: T -> K, ks: seq<K>)
    requires NoDuplicates(ks)
    ensures Sum(FibreSizes(s, key, ks)) == |Covered(s, key, ks)|
  {
    var covered := Covered(s, key, ks);
    if ks == [] {
      assert covered == {};
    } else {
      var rest := Covered(s, key, ks[1..]);
      assert covered == Fibre(s, key, ks[0]) + rest by {
        assert ks == [ks[0]] + ks[1..];
      }
      assert Fibre(s, key, ks[0]) !! rest;
      assert FibreSizes(s, key, ks)[1..] == FibreSizes(s, key, ks[1..]);
      FibresPartition(s, key, ks[1..]);
    }
  }

  lemma SubsetSize<T>(a: set<T>, b: set<T>)
    requires a <= b
    ensures |a| <= |b|
    ensures |a| == |b| <==> a == b
  {
    assert b == a + (b - a);
    if |a| == |b| {
      assert |b - a| == 0;
    }
  }

  /** Rows that differ in their first column are as many as the values of that column. */
  lemma {:induction false} DistinctRows<R(!new), T(!new)>(rows: set<R>, subject: R -> T, subjects: set<T>)
    requires forall r :: r in rows ==> subject(r) in subjects
    requires forall x :: x in subjects ==> exists r :: r in rows && subject(r) == x
    requires forall r, q :: r in rows && q in rows && subject(r) == subject(q) ==> r == q
    ensures |rows| == |subjects|
  {
    if rows == {} {
      assert subjects == {};
    } else {
      var r :| r in rows;
      forall x | x in subjects - {subject(r)} ensures exists q :: q in rows - {r} && subject(q) == x {
        var q :| q in rows && subject(q) == x;
        assert q in rows - {r};
      }
      DistinctRows(rows - {r}, subject, subjects - {subject(r)});
    }
  }
}
