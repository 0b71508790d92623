/** Dictionaries of lists filled by setdefault(key, []).append(x): one bucket per key. */
module Bucketing {
  import opened Prelude
  import opened Sorting

  function Having<T, K(==)>(xs: seq<T>, keyOf: T -> K, k: K): seq<T> {
    Filter(x => keyOf(x) == k, xs)
  }

  lemma HavingMembers<T, K>(xs: seq<T>, keyOf: T -> K, k: K, x: T)
    ensures x in Having(xs, keyOf, k) <==> x in xs && keyOf(x) == k
  {
    FilterMembers(y => keyOf(y) == k, xs, x);
  }

  lemma HavingCounts<T, K>(xs: seq<T>, keyOf: T -> K, k: K, x: T)
    ensures multiset(Having(xs, keyOf, k))[x] == if keyOf(x) == k then multiset(xs)[x] else 0
  {
    FilterCounts(y => keyOf(y) == k, xs, x);
  }

  lemma HavingAll<T, K>(xs: seq<T>, keyOf: T -> K, k: K)
    requires forall x :: x in xs ==> keyOf(x) == k
    ensures Having(xs, keyOf, k) == xs
  {
    AllPicked(x => keyOf(x) == k, xs);
  }

  /** The dictionary of lists filled by setdefault(...).append, and its keys in order. */
  ghost predicate Buckets<T(!new), K(!new)>(xs: seq<T>, keyOf: T -> K, names: seq<K>, buckets: map<K, seq<T>>) {
    && Distinct(names)
    && (forall k :: k in names <==> k in buckets)
    && (forall x :: x in xs ==> keyOf(x) in buckets)
    && (forall k :: k in buckets ==> buckets[k] == Having(xs, keyOf, k) && buckets[k] != [])
  }

  method BucketBy<T(!new), K(==, !new)>(xs: seq<T>, keyOf: T -> K) returns (names: seq<K>, buckets: map<K, seq<T>>)
    ensures Buckets(xs, keyOf, names, buckets)
  {
    names, buckets := [], map[];
    for i := 0 to |xs|
      invariant Buckets(xs[..i], keyOf, names, buckets)
    {
      var x := xs[i];
      var k := keyOf(x);
      BucketStep(xs, keyOf, i, names, buckets);
      if k in buckets {
        buckets := buckets[k := buckets[k] + [x]];
      } else {
        names, buckets := names + [k], buckets[k := [x]];
      }
    }
    assert xs[..|xs|] == xs;
  }

  lemma BucketStep<T(!new), K(!new)>(xs: seq<T>, keyOf: T -> K, i: nat, names: seq<K>, buckets: map<K, seq<T>>)
    requires i < |xs| && Buckets(xs[..i], keyOf, names, buckets)
    ensures var k := keyOf(xs[i]);
            if k in buckets then Buckets(xs[..i + 1], keyOf, names, buckets[k := buckets[k] + [xs[i]]])
            else Buckets(xs[..i + 1], keyOf, names + [k], buckets[k := [xs[i]]])
  {
    var x, k := xs[i], keyOf(xs[i]);
    assert xs[..i + 1] == xs[..i] + [x];
    forall k' ensures Having(xs[..i + 1], keyOf, k') == Having(xs[..i], keyOf, k') + if k == k' then [x] else [] {
      FilterSnoc(y => keyOf(y) == k', xs[..i], x);
    }
    if k !in buckets {
      NothingPicked(y => keyOf(y) == k, xs[..i]);
    }
  }

  lemma {:induction false} FilterDistinct<T>(p: T -> bool, xs: seq<T>)
    requires Distinct(xs)
    ensures Distinct(Filter(p, xs))
  {
    if xs != [] {
      forall i, j | 0 <= i < j < |xs[1..]| ensures xs[1..][i] != xs[1..][j] {
        assert xs[i + 1] != xs[j + 1];
      }
      FilterDistinct(p, xs[1..]);
      var rest := Filter(p, xs[1..]);
      forall j | 0 <= j < |rest| ensures rest[j] != xs[0] {
        FilterMembers(p, xs[1..], rest[j]);
        var m :| 0 <= m < |xs[1..]| && xs[1..][m] == rest[j];
        assert xs[0] != xs[m + 1];
      }
    }
  }

  lemma BucketFacts<T(!new), K(!new)>(xs: seq<T>, keyOf: T -> K, names: seq<K>, buckets: map<K, seq<T>>, k: K)
    requires Distinct(xs) && Buckets(xs, keyOf, names, buckets) && k in buckets
    ensures buckets[k] != [] && Distinct(buckets[k])
    ensures forall x :: x in buckets[k] <==> x in xs && keyOf(x) == k
  {
    FilterDistinct(x => keyOf(x) == k, xs);
    forall x ensures x in buckets[k] <==> x in xs && keyOf(x) == k {
      HavingMembers(xs, keyOf, k, x);
    }
  }

  lemma SortedNames<K(!new)>(names: seq<K>, le: (K, K) -> bool)
    requires Distinct(names)
    ensures Distinct(Sort(names, le)) && forall k :: k in Sort(names, le) <==> k in names
  {
    SortIsPermutation(names, le);
    DistinctByBag(names, Sort(names, le));
    forall k ensures k in Sort(names, le) <==> k in names {
      assert k in multiset(Sort(names, le)) <==> k in multiset(names);
    }
  }
}
