/** Python's `sorted`: a stable sort by a total preorder, with the facts the
    callers rely on (permutation, order, uniqueness when ties are equal). */
module Sorting {

  ghost predicate TotalPreorder<T(!new)>(le: (T, T) -> bool) {
    && (forall x, y :: le(x, y) || le(y, x))
    && (forall x, y, z :: le(x, y) && le(y, z) ==> le(x, z))
  }

  ghost predicate Sorted<T>(xs: seq<T>, le: (T, T) -> bool) {
    forall i, j :: 0 <= i < j < |xs| ==> le(xs[i], xs[j])
  }

  function Insert<T>(x: T, xs: seq<T>, le: (T, T) -> bool): seq<T> {
    if xs == [] then [x]
    else if le(x, xs[0]) then [x] + xs
    else [xs[0]] + Insert(x, xs[1..], le)
  }

  /** Equal elements keep their relative order: each element is put in front of
      the later elements it ties with. */
  function Sort<T>(xs: seq<T>, le: (T, T) -> bool): seq<T> {
    if xs == [] then [] else Insert(xs[0], Sort(xs[1..], le), le)
  }

  lemma {:induction false} InsertIsPermutation<T>(x: T, xs: seq<T>, le: (T, T) -> bool)
    ensures multiset(Insert(x, xs, le)) == multiset{x} + multiset(xs)
  {
    if xs != [] {
      assert xs == [xs[0]] + xs[1..];
      if !le(x, xs[0]) {
        InsertIsPermutation(x, xs[1..], le);
      }
    }
  }

  lemma {:induction false} SortIsPermutation<T>(xs: seq<T>, le: (T, T) -> bool)
    ensures multiset(Sort(xs, le)) == multiset(xs)
    ensures |Sort(xs, le)| == |xs|
  {
    if xs != [] {
      assert xs == [xs[0]] + xs[1..];
      SortIsPermutation(xs[1..], le);
      InsertIsPermutation(xs[0], Sort(xs[1..], le), le);
    }
    assert |multiset(Sort(xs, le))| == |multiset(xs)|;
  }

  lemma {:induction false} InsertKeepsSorted<T(!new)>(x: T, xs: seq<T>, le: (T, T) -> bool)
    requires TotalPreorder(le) && Sorted(xs, le)
    ensures Sorted(Insert(x, xs, le), le)
  {
    if xs != [] && !le(x, xs[0]) {
      var rest := Insert(x, xs[1..], le);
      InsertKeepsSorted(x, xs[1..], le);
      InsertIsPermutation(x, xs[1..], le);
      forall j | 0 <= j < |rest| ensures le(xs[0], rest[j]) {
        assert rest[j] in multiset(rest);
      }
    }
  }

  lemma {:induction false} SortIsSorted<T(!new)>(xs: seq<T>, le: (T, T) -> bool)
    requires TotalPreorder(le)
    ensures Sorted(Sort(xs, le), le)
  {
    if xs != [] {
      SortIsSorted(xs[1..], le);
      InsertKeepsSorted(xs[0], Sort(xs[1..], le), le);
    }
  }

  ghost predicate Distinct<T>(xs: seq<T>) {
    forall i, j :: 0 <= i < j < |xs| ==> xs[i] != xs[j]
  }

  lemma DistinctMeansOnce<T>(xs: seq<T>, x: T)
    ensures Distinct(xs) ==> multiset(xs)[x] <= 1
  {
    if Distinct(xs) && xs != [] {
      TailBag(xs);
      assert forall j :: 0 <= j < |xs[1..]| ==> xs[1..][j] == xs[j + 1];
      DistinctMeansOnce(xs[1..], x);
      if x == xs[0] {
        assert x !in xs[1..];
        assert multiset(xs[1..])[x] == 0;
      }
      assert multiset(xs) == multiset(xs[1..]) + multiset{xs[0]};
    }
  }

  lemma TwiceMeansTwo<T>(xs: seq<T>, i: int, j: int)
    requires 0 <= i < j < |xs| && xs[i] == xs[j]
    ensures multiset(xs)[xs[i]] >= 2
  {
    assert xs == xs[..j] + [xs[j]] + xs[j + 1..];
    assert xs[..j][i] == xs[i];
    assert xs[i] in multiset(xs[..j]);
  }

  /** Distinctness only depends on the bag of elements. */
  lemma DistinctByBag<T>(xs: seq<T>, ys: seq<T>)
    requires Distinct(xs) && multiset(xs) == multiset(ys)
    ensures Distinct(ys)
  {
    forall i, j | 0 <= i < j < |ys| ensures ys[i] != ys[j] {
      if ys[i] == ys[j] {
        TwiceMeansTwo(ys, i, j);
        DistinctMeansOnce(xs, ys[i]);
      }
    }
  }

  ghost predicate Antisymmetric<T(!new)>(le: (T, T) -> bool) {
    forall x, y :: le(x, y) && le(y, x) ==> x == y
  }

  lemma FirstIsLeast<T(!new)>(xs: seq<T>, x: T, le: (T, T) -> bool)
    requires TotalPreorder(le) && Sorted(xs, le) && x in multiset(xs)
    ensures |xs| > 0 && le(xs[0], x)
  {
  }

  lemma FirstsAgree<T(!new)>(xs: seq<T>, ys: seq<T>, le: (T, T) -> bool)
    requires TotalPreorder(le) && Antisymmetric(le) && Sorted(xs, le) && Sorted(ys, le)
    requires xs != [] && ys != [] && multiset(xs) == multiset(ys)
    ensures xs[0] == ys[0]
  {
    FirstIsLeast(xs, ys[0], le);
    FirstIsLeast(ys, xs[0], le);
  }

  lemma TailBag<T>(xs: seq<T>)
    requires xs != []
    ensures multiset(xs[1..]) == multiset(xs) - multiset{xs[0]}
  {
    assert xs == [xs[0]] + xs[1..];
  }

  lemma SameBagSameLength<T>(xs: seq<T>, ys: seq<T>)
    requires multiset(xs) == multiset(ys)
    ensures |xs| == |ys|
  {
    assert |xs| == |multiset(xs)|;
  }

  /** Sorting forgets the input order when tied elements are equal. */
  lemma {:induction false} SortedIsUnique<T(!new)>(xs: seq<T>, ys: seq<T>, le: (T, T) -> bool)
    requires TotalPreorder(le) && Antisymmetric(le)
    requires Sorted(xs, le) && Sorted(ys, le)
    requires multiset(xs) == multiset(ys)
    ensures xs == ys
  {
    SameBagSameLength(xs, ys);
    if xs != [] {
      FirstsAgree(xs, ys, le);
      TailBag(xs);
      TailBag(ys);
      SortedIsUnique(xs[1..], ys[1..], le);
      assert xs == [xs[0]] + xs[1..] && ys == [ys[0]] + ys[1..];
    }
  }
}
