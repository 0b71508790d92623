/** Small shared definitions. */
module Prelude {

  datatype Option<+T> = None | Some(value: T)

  function Filter<T>(p: T -> bool, xs: seq<T>): seq<T> {
    if xs == [] then []
    else if p(xs[0]) then [xs[0]] + Filter(p, xs[1..])
    else Filter(p, xs[1..])
  }

  lemma {:induction false} FilterCounts<T>(p: T -> bool, xs: seq<T>, x: T)
    ensures multiset(Filter(p, xs))[x] == if p(x) then multiset(xs)[x] else 0
  {
    if xs != [] {
      assert xs == [xs[0]] + xs[1..];
      FilterCounts(p, xs[1..], x);
    }
  }

  /** Filtering two permutations of a list gives two permutations. */
  lemma FilterKeepsBag<T>(p: T -> bool, xs: seq<T>, ys: seq<T>)
    requires multiset(xs) == multiset(ys)
    ensures multiset(Filter(p, xs)) == multiset(Filter(p, ys))
  {
    FilterBagBelow(p, xs, ys);
    FilterBagBelow(p, ys, xs);
  }

  lemma FilterBagBelow<T>(p: T -> bool, xs: seq<T>, ys: seq<T>)
    requires multiset(xs) == multiset(ys)
    ensures multiset(Filter(p, xs)) <= multiset(Filter(p, ys))
  {
    forall x | x in multiset(Filter(p, xs)) ensures multiset(Filter(p, xs))[x] <= multiset(Filter(p, ys))[x] {
      FilterCounts(p, xs, x);
      FilterCounts(p, ys, x);
    }
  }

  lemma FilterMembers<T>(p: T -> bool, xs: seq<T>, x: T)
    ensures x in Filter(p, xs) <==> x in xs && p(x)
  {
  }

  lemma {:induction false} FilterSnoc<T>(p: T -> bool, xs: seq<T>, x: T)
    ensures Filter(p, xs + [x]) == Filter(p, xs) + if p(x) then [x] else []
  {
    if xs != [] {
      assert (xs + [x])[1..] == xs[1..] + [x];
      FilterSnoc(p, xs[1..], x);
    }
  }

  lemma NothingPicked<T>(p: T -> bool, xs: seq<T>)
    requires forall x :: x in xs ==> !p(x)
    ensures Filter(p, xs) == []
  {
  }

  lemma {:induction false} AllPicked<T>(p: T -> bool, xs: seq<T>)
    requires forall x :: x in xs ==> p(x)
    ensures Filter(p, xs) == xs
  {
    if xs != [] {
      AllPicked(p, xs[1..]);
    }
  }

  lemma {:induction false} FilterAtMost<T>(p: T -> bool, xs: seq<T>)
    ensures |Filter(p, xs)| <= |xs|
  {
    if xs != [] {
      FilterAtMost(p, xs[1..]);
    }
  }

  ghost function Picked<T>(p: T -> bool, xs: seq<T>): set<nat> {
    set i: nat | i < |xs| && p(xs[i])
  }

  lemma PickedTail<T>(p: T -> bool, xs: seq<T>, i: nat)
    requires xs != []
    ensures i + 1 in Picked(p, xs) <==> i in Picked(p, xs[1..])
  {
  }

  lemma PickedShift<T>(p: T -> bool, xs: seq<T>)
    requires xs != []
    ensures |Picked(p, xs)| == |Picked(p, xs[1..])| + if p(xs[0]) then 1 else 0
  {
    hide Picked;
    var all, rest := Picked(p, xs), Picked(p, xs[1..]);
    var moved: set<nat> := set i | i in rest :: i + 1;
    ImageSize(rest, moved, (i: nat) => i + 1);
    forall i: nat ensures i in moved <==> i != 0 && i in all {
      if i > 0 {
        PickedTail(p, xs, i - 1);
      }
    }
    PickedFirst(p, xs);
    assert all == if p(xs[0]) then moved + {0} else moved;
  }

  lemma PickedFirst<T>(p: T -> bool, xs: seq<T>)
    requires xs != []
    ensures 0 in Picked(p, xs) <==> p(xs[0])
  {
  }

  lemma {:induction false} FilterSize<T>(p: T -> bool, xs: seq<T>)
    ensures |Filter(p, xs)| == |Picked(p, xs)|
  {
    if xs != [] {
      PickedShift(p, xs);
      FilterSize(p, xs[1..]);
    } else {
      assert Picked(p, xs) == {};
    }
  }

  /** An injective image has as many elements as its source. */
  lemma {:induction false} ImageSize<A, B>(xs: set<A>, ys: set<B>, f: A -> B)
    requires ys == set x | x in xs :: f(x)
    requires forall x, y :: x in xs && y in xs && f(x) == f(y) ==> x == y
    ensures |ys| == |xs|
  {
    if xs != {} {
      var x :| x in xs;
      var xs', ys' := xs - {x}, ys - {f(x)};
      assert ys' == set z | z in xs' :: f(z);
      ImageSize(xs', ys', f);
    }
  }

  lemma {:induction false} SubsetSize<A>(xs: set<A>, ys: set<A>)
    requires xs <= ys
    ensures |xs| <= |ys|
  {
    if xs != {} {
      var x :| x in xs;
      SubsetSize(xs - {x}, ys - {x});
    }
  }
}
