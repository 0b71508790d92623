/** Connected components of a symmetric relation on the members of a list: what a
    grouping computes, independent of how and in which order it was computed. */
module Components {
  import opened Sorting

  ghost predicate Hop<T(!new)>(near: (T, T) -> bool, path: seq<T>, k: nat)
    requires 0 < k < |path|
  {
    near(path[k - 1], path[k])
  }

  ghost predicate Within<T(!new)>(path: seq<T>, xs: seq<T>) {
    forall x :: x in path ==> x in xs
  }

  /** A path through members of xs whose consecutive entries are near each other. */
  ghost predicate Chain<T(!new)>(near: (T, T) -> bool, xs: seq<T>, path: seq<T>) {
    && path != [] && Within(path, xs)
    && forall k :: 0 < k < |path| ==> Hop(near, path, k)
  }

  ghost predicate Linked<T(!new)>(near: (T, T) -> bool, xs: seq<T>, x: T, y: T) {
    exists path :: Chain(near, xs, path) && path[0] == x && path[|path| - 1] == y
  }

  ghost predicate Symmetric<T(!new)>(near: (T, T) -> bool) {
    forall x, y :: near(x, y) ==> near(y, x)
  }

  ghost predicate Listed<T>(clusters: seq<seq<T>>, x: T) {
    exists c :: 0 <= c < |clusters| && x in clusters[c]
  }

  ghost predicate Disjoint<T(!new)>(a: seq<T>, b: seq<T>) {
    forall x :: x in a ==> x !in b
  }

  /** Every member of xs stands in exactly one place of exactly one cluster. */
  ghost predicate Partition<T(!new)>(clusters: seq<seq<T>>, xs: seq<T>) {
    && (forall c :: 0 <= c < |clusters| ==> clusters[c] != [] && Within(clusters[c], xs) && Distinct(clusters[c]))
    && (forall x :: x in xs ==> Listed(clusters, x))
    && (forall c, d :: 0 <= c < d < |clusters| ==> Disjoint(clusters[c], clusters[d]))
  }

  ghost predicate Together<T>(clusters: seq<seq<T>>, x: T, y: T) {
    exists c :: 0 <= c < |clusters| && x in clusters[c] && y in clusters[c]
  }

  ghost predicate AreComponents<T(!new)>(near: (T, T) -> bool, xs: seq<T>, clusters: seq<seq<T>>) {
    && Partition(clusters, xs)
    && forall x, y :: x in xs && y in xs ==> (Together(clusters, x, y) <==> Linked(near, xs, x, y))
  }

  lemma TogetherTransitive<T(!new)>(clusters: seq<seq<T>>, xs: seq<T>, x: T, y: T, z: T)
    requires Partition(clusters, xs) && Together(clusters, x, y) && Together(clusters, y, z)
    ensures Together(clusters, x, z)
  {
  }

  /** Near members always share a cluster. */
  ghost predicate StepsStay<T(!new)>(near: (T, T) -> bool, xs: seq<T>, clusters: seq<seq<T>>) {
    forall x, y :: x in xs && y in xs && near(x, y) ==> Together(clusters, x, y)
  }

  lemma {:induction false} ChainStays<T(!new)>(near: (T, T) -> bool, xs: seq<T>, clusters: seq<seq<T>>, path: seq<T>)
    requires Partition(clusters, xs) && StepsStay(near, xs, clusters) && Chain(near, xs, path)
    ensures Together(clusters, path[0], path[|path| - 1])
  {
    if |path| == 1 {
      assert path[0] in path;
      assert Listed(clusters, path[0]);
    } else {
      var front, l := path[..|path| - 1], |path| - 1;
      forall k: nat | 0 < k < |front| ensures Hop(near, front, k) {
        assert Hop(near, path, k);
      }
      ChainStays(near, xs, clusters, front);
      assert Hop(near, path, l) && path[l - 1] in path && path[l] in path;
      TogetherTransitive(clusters, xs, path[0], path[l - 1], path[l]);
    }
  }

  /** Every cluster is a chain of steps. */
  ghost predicate Strung<T(!new)>(near: (T, T) -> bool, clusters: seq<seq<T>>) {
    forall c, k :: 0 <= c < |clusters| && 0 < k < |clusters[c]| ==> Hop(near, clusters[c], k)
  }

  /** A partition that no step leaves and whose clusters are strung together by steps. */
  ghost predicate Grouping<T(!new)>(near: (T, T) -> bool, xs: seq<T>, clusters: seq<seq<T>>) {
    Partition(clusters, xs) && StepsStay(near, xs, clusters) && Strung(near, clusters)
  }

  lemma SliceLinks<T(!new)>(near: (T, T) -> bool, xs: seq<T>, cluster: seq<T>, a: nat, b: nat)
    requires Within(cluster, xs) && a <= b < |cluster|
    requires forall k :: 0 < k < |cluster| ==> Hop(near, cluster, k)
    ensures Linked(near, xs, cluster[a], cluster[b])
  {
    var path := cluster[a..b + 1];
    forall k: nat | 0 < k < |path| ensures Hop(near, path, k) {
      assert Hop(near, cluster, a + k);
    }
    assert Chain(near, xs, path);
  }

  lemma LinkedSymmetric<T(!new)>(near: (T, T) -> bool, xs: seq<T>, x: T, y: T)
    requires Symmetric(near) && Linked(near, xs, x, y)
    ensures Linked(near, xs, y, x)
  {
    var path :| Chain(near, xs, path) && path[0] == x && path[|path| - 1] == y;
    var back := seq(|path|, k requires 0 <= k < |path| => path[|path| - 1 - k]);
    forall k: nat | 0 < k < |back| ensures Hop(near, back, k) {
      assert Hop(near, path, |path| - k);
    }
    forall z | z in back ensures z in xs {
      var k :| 0 <= k < |back| && back[k] == z;
      assert path[|path| - 1 - k] in path;
    }
    assert Chain(near, xs, back);
  }

  lemma TogetherLinks<T(!new)>(near: (T, T) -> bool, xs: seq<T>, clusters: seq<seq<T>>, x: T, y: T)
    requires Symmetric(near) && Partition(clusters, xs) && Strung(near, clusters) && Together(clusters, x, y)
    ensures Linked(near, xs, x, y)
  {
    var c :| 0 <= c < |clusters| && x in clusters[c] && y in clusters[c];
    var a :| 0 <= a < |clusters[c]| && clusters[c][a] == x;
    var b :| 0 <= b < |clusters[c]| && clusters[c][b] == y;
    if a <= b {
      SliceLinks(near, xs, clusters[c], a, b);
    } else {
      SliceLinks(near, xs, clusters[c], b, a);
      LinkedSymmetric(near, xs, y, x);
    }
  }

  /** Such a grouping is the partition into connected components. */
  lemma StepsGiveComponents<T(!new)>(near: (T, T) -> bool, xs: seq<T>, clusters: seq<seq<T>>)
    requires Symmetric(near) && Grouping(near, xs, clusters)
    ensures AreComponents(near, xs, clusters)
  {
    forall x, y | x in xs && y in xs ensures Together(clusters, x, y) <==> Linked(near, xs, x, y) {
      if Together(clusters, x, y) {
        TogetherLinks(near, xs, clusters, x, y);
      }
      if Linked(near, xs, x, y) {
        var path :| Chain(near, xs, path) && path[0] == x && path[|path| - 1] == y;
        ChainStays(near, xs, clusters, path);
      }
    }
  }

  /** Components depend only on the members and on the relation between them. */
  lemma ComponentsAgree<T(!new)>(near: (T, T) -> bool, xs: seq<T>, clusters: seq<seq<T>>,
                                 near': (T, T) -> bool, ys: seq<T>, clusters': seq<seq<T>>, x: T, y: T)
    requires AreComponents(near, xs, clusters) && AreComponents(near', ys, clusters')
    requires forall z :: z in xs <==> z in ys
    requires forall a, b :: a in xs && b in xs ==> near(a, b) == near'(a, b)
    requires x in xs && y in xs
    ensures Together(clusters, x, y) <==> Together(clusters', x, y)
  {
    if path :| Chain(near, xs, path) && path[0] == x && path[|path| - 1] == y {
      SameChain(near, xs, near', ys, path);
    }
    if path :| Chain(near', ys, path) && path[0] == x && path[|path| - 1] == y {
      SameChain(near', ys, near, xs, path);
    }
  }

  lemma SameChain<T(!new)>(near: (T, T) -> bool, xs: seq<T>, near': (T, T) -> bool, ys: seq<T>, path: seq<T>)
    requires forall z :: z in xs <==> z in ys
    requires forall a, b :: a in xs && b in xs ==> near(a, b) == near'(a, b)
    requires Chain(near, xs, path)
    ensures Chain(near', ys, path)
  {
    forall k: nat | 0 < k < |path| ensures Hop(near', path, k) {
      assert Hop(near, path, k) && path[k - 1] in path && path[k] in path;
    }
  }

  // ------------------------------------------------ assembling a grouping

  ghost predicate Apart<T(!new)>(near: (T, T) -> bool, xs: seq<T>, ys: seq<T>) {
    forall x, y :: x in xs && y in ys ==> x != y && !near(x, y) && !near(y, x)
  }

  lemma JoinPartitions<T(!new)>(xs: seq<T>, clusters: seq<seq<T>>, ys: seq<T>, more: seq<seq<T>>)
    requires Partition(clusters, xs) && Partition(more, ys) && Disjoint(xs, ys)
    ensures Partition(clusters + more, xs + ys)
  {
    var all := clusters + more;
    forall c, d | 0 <= c < d < |all| ensures Disjoint(all[c], all[d]) {
      if d < |clusters| {
        assert Disjoint(clusters[c], clusters[d]);
      } else if c < |clusters| {
        assert Within(clusters[c], xs) && Within(more[d - |clusters|], ys);
      } else {
        assert Disjoint(more[c - |clusters|], more[d - |clusters|]);
      }
    }
    forall x | x in xs + ys ensures Listed(all, x) {
      KeepsListed(clusters, more, x);
      assert x in xs ==> Listed(clusters, x);
      assert x in ys ==> Listed(more, x);
    }
  }

  lemma KeepsListed<T>(clusters: seq<seq<T>>, more: seq<seq<T>>, x: T)
    ensures Listed(clusters, x) || Listed(more, x) ==> Listed(clusters + more, x)
  {
    if c :| 0 <= c < |clusters| && x in clusters[c] {
      assert x in (clusters + more)[c];
    }
    if c :| 0 <= c < |more| && x in more[c] {
      assert x in (clusters + more)[|clusters| + c];
    }
  }

  lemma KeepsTogether<T>(clusters: seq<seq<T>>, more: seq<seq<T>>, x: T, y: T)
    ensures Together(clusters, x, y) || Together(more, x, y) ==> Together(clusters + more, x, y)
  {
    if c :| 0 <= c < |clusters| && x in clusters[c] && y in clusters[c] {
      assert x in (clusters + more)[c] && y in (clusters + more)[c];
    }
    if c :| 0 <= c < |more| && x in more[c] && y in more[c] {
      assert x in (clusters + more)[|clusters| + c] && y in (clusters + more)[|clusters| + c];
    }
  }

  /** Groupings of two collections with no step between them make one grouping. */
  lemma JoinGroupings<T(!new)>(near: (T, T) -> bool, xs: seq<T>, clusters: seq<seq<T>>, ys: seq<T>, more: seq<seq<T>>)
    requires Grouping(near, xs, clusters) && Grouping(near, ys, more) && Apart(near, xs, ys)
    ensures Grouping(near, xs + ys, clusters + more)
  {
    JoinPartitions(xs, clusters, ys, more);
    forall x, y | x in xs + ys && y in xs + ys && near(x, y) ensures Together(clusters + more, x, y) {
      KeepsTogether(clusters, more, x, y);
      if x in xs && y in xs {
        assert Together(clusters, x, y);
      } else {
        assert x in ys && y in ys;
        assert Together(more, x, y);
      }
    }
  }

  /** Members that are all near each other form a single cluster. */
  lemma OneCluster<T(!new)>(near: (T, T) -> bool, xs: seq<T>)
    requires xs != [] && Distinct(xs)
    requires forall x, y :: x in xs && y in xs ==> near(x, y)
    ensures Grouping(near, xs, [xs])
  {
    var clusters := [xs];
    forall x | x in xs ensures Listed(clusters, x) {
      assert x in clusters[0];
    }
    forall x, y | x in xs && y in xs ensures Together(clusters, x, y) {
      assert x in clusters[0] && y in clusters[0];
    }
  }

  /** Two members that are not near each other are two clusters. */
  lemma TwoSingletons<T(!new)>(near: (T, T) -> bool, x: T, y: T)
    requires x != y && !near(x, y) && !near(y, x)
    ensures Grouping(near, [x, y], [[x], [y]])
  {
    var xs, clusters := [x, y], [[x], [y]];
    assert forall z :: z in xs <==> z == x || z == y;
    forall z | z in xs ensures Listed(clusters, z) && Together(clusters, z, z) {
      assert x in clusters[0] && y in clusters[1];
    }
  }
}
