/** `cluster_minutes` (src/pae/miner/stats.py): sort, split at wide gaps, merge
    the two ends of the day — and what that computes on the circle. */
module Clusters {
  import opened Circle
  import opened CircularMean
  import opened Sorting
  import opened Components
  import opened Splitting

  // ---------------------------------------------------------- specification

  /** Indexes whose clock times are at most gap apart on the circle. */
  ghost function NearOnDial(minutes: seq<int>, gap: int): (nat, nat) -> bool {
    (i: nat, j: nat) => i < |minutes| && j < |minutes| && Dist(minutes[i], minutes[j]) <= gap
  }

  function Indexes(n: nat): (all: seq<nat>)
    ensures |all| == n && forall i :: 0 <= i < n ==> all[i] == i
  {
    seq(n, i => i)
  }

  ghost predicate Tick(minutes: seq<int>, gap: int, path: seq<nat>, k: nat)
    requires 0 < k < |path|
  {
    path[k - 1] < |minutes| && path[k] < |minutes| && Forward(minutes[path[k - 1]], minutes[path[k]]) <= gap
  }

  /** Each cluster is listed the way the clock runs: from one entry to the next
      the clock advances by at most gap, possibly across midnight. */
  ghost predicate ClockOrdered(minutes: seq<int>, gap: int, cluster: seq<nat>) {
    forall k :: 0 < k < |cluster| ==> Tick(minutes, gap, cluster, k)
  }

  /** The connected components of "circular distance at most gap". */
  ghost predicate DialComponents(minutes: seq<int>, gap: int, clusters: seq<seq<nat>>) {
    && AreComponents(NearOnDial(minutes, gap), Indexes(|minutes|), clusters)
    && forall c :: 0 <= c < |clusters| ==> ClockOrdered(minutes, gap, clusters[c])
  }

  // ------------------------------------------------------------- clock order

  datatype Stamp = Stamp(minute: int, index: nat)

  function ByMinute(): (Stamp, Stamp) -> bool {
    (a: Stamp, b: Stamp) => a.minute <= b.minute
  }

  function Stamps(minutes: seq<int>): seq<Stamp> {
    seq(|minutes|, i requires 0 <= i < |minutes| => Stamp(minutes[i], i))
  }

  /** `sorted(range(len(minutes)), key=lambda i: minutes[i])` */
  function ClockOrder(minutes: seq<int>): seq<nat> {
    var s := Sort(Stamps(minutes), ByMinute());
    seq(|s|, p requires 0 <= p < |s| => s[p].index)
  }

  ghost predicate Below(order: seq<nat>, n: nat) {
    forall p :: 0 <= p < |order| ==> order[p] < n
  }

  /** The clock times in increasing order. */
  ghost function Times(minutes: seq<int>, order: seq<nat>): (ts: seq<int>)
    requires Below(order, |minutes|)
    ensures |ts| == |order|
  {
    seq(|order|, p requires 0 <= p < |order| => minutes[order[p]])
  }

  ghost predicate IsClockOrder(minutes: seq<int>, order: seq<nat>) {
    && |order| == |minutes|
    && Distinct(order)
    && Below(order, |minutes|)
    && (forall i: nat :: i < |minutes| ==> i in order)
    && Increasing(Times(minutes, order))
  }

  lemma SameStamps(minutes: seq<int>, s: seq<Stamp>)
    requires multiset(s) == multiset(Stamps(minutes))
    ensures forall p :: 0 <= p < |s| ==> s[p].index < |minutes| && s[p].minute == minutes[s[p].index]
    ensures forall i :: 0 <= i < |minutes| ==> Stamps(minutes)[i] in s
  {
    var stamps := Stamps(minutes);
    forall p | 0 <= p < |s| ensures s[p].index < |minutes| && s[p].minute == minutes[s[p].index] {
      assert s[p] in multiset(stamps);
    }
    forall i | 0 <= i < |minutes| ensures stamps[i] in s {
      assert stamps[i] in multiset(s);
    }
  }

  lemma ClockOrderIsClockOrder(minutes: seq<int>)
    ensures IsClockOrder(minutes, ClockOrder(minutes))
  {
    var stamps, order := Stamps(minutes), ClockOrder(minutes);
    var s := Sort(stamps, ByMinute());
    SortIsPermutation(stamps, ByMinute());
    SortIsSorted(stamps, ByMinute());
    DistinctByBag(stamps, s);
    SameStamps(minutes, s);
    forall i: nat | i < |minutes| ensures i in order {
      var p :| 0 <= p < |s| && s[p] == stamps[i];
      assert order[p] == i;
    }
    forall p, q | 0 <= p < q < |order| ensures order[p] != order[q] && minutes[order[p]] <= minutes[order[q]] {
      assert ByMinute()(s[p], s[q]);
      assert s[p] != s[q];
    }
  }

  // -------------------------------------------------------------- the method

  method ClusterMinutes(minutes: seq<int>, gap: int) returns (clusters: seq<seq<nat>>)
    requires OnDial(minutes)
    ensures DialComponents(minutes, gap, clusters)
  {
    hide DialComponents, SplitOf, Joined;
    if minutes == [] {
      NoClusters(minutes, gap);
      return [];
    }
    var order := ClockOrder(minutes);
    ClockOrderIsClockOrder(minutes);
    var runs := SplitAtWideGaps(minutes, gap, order);
    clusters := JoinMidnight(minutes, gap, order, runs);
    MergeGivesComponents(minutes, gap, order, runs, clusters);
  }

  lemma NoClusters(minutes: seq<int>, gap: int)
    requires minutes == []
    ensures DialComponents(minutes, gap, [])
  {
  }

  /** The last run joins the first when the gap across midnight is no wider than gap. */
  method JoinMidnight(minutes: seq<int>, gap: int, order: seq<nat>,
                      runs: seq<seq<nat>>) returns (clusters: seq<seq<nat>>)
    requires IsClockOrder(minutes, order) && order != []
    ensures Joined(WrapsAround(minutes, gap, order, runs), runs, clusters)
  {
    clusters := runs;
    if |clusters| > 1 && minutes[order[0]] + DAY - minutes[order[|order| - 1]] <= gap {
      var last := clusters[|clusters| - 1];
      clusters := clusters[..|clusters| - 1];
      clusters := clusters[0 := last + clusters[0]];
    }
  }

  /** The loop over `order[1:]`. */
  method SplitAtWideGaps(minutes: seq<int>, gap: int, order: seq<nat>) returns (clusters: seq<seq<nat>>)
    requires IsClockOrder(minutes, order) && order != []
    ensures SplitOf(Times(minutes, order), gap, order, clusters)
    ensures clusters != [] && clusters[0] != []
  {
    ghost var ts := Times(minutes, order);
    clusters := [[order[0]]];
    ghost var cut: seq<nat> := [0];
    FirstRun(ts, gap, order);
    for k := 1 to |order|
      invariant Runs(ts, gap, order, k, cut, clusters)
    {
      var i := order[k];
      LastEntry(order, cut, k, clusters);
      var last := clusters[|clusters| - 1];
      if minutes[i] - minutes[last[|last| - 1]] > gap {
        ExtendByCut(ts, gap, order, k, cut, clusters);
        clusters := clusters + [[i]];
        cut := cut + [k];
      } else {
        ExtendLastRun(ts, gap, order, k, cut, clusters);
        clusters := clusters[|clusters| - 1 := last + [i]];
      }
    }
  }

  ghost predicate WrapsAround(minutes: seq<int>, gap: int, order: seq<nat>, runs: seq<seq<nat>>)
    requires IsClockOrder(minutes, order) && order != []
  {
    |runs| > 1 && minutes[order[0]] + DAY - minutes[order[|order| - 1]] <= gap
  }

  /** Where run c ends up after the ends of the day have been joined. */
  ghost function Home(wraps: bool, runs: seq<seq<nat>>, c: nat): nat {
    if wraps && c == |runs| - 1 then 0 else c
  }

  ghost predicate Joined(wraps: bool, runs: seq<seq<nat>>, clusters: seq<seq<nat>>) {
    if wraps
    then |runs| > 1 && |clusters| == |runs| - 1 && clusters[0] == runs[|runs| - 1] + runs[0]
         && forall c :: 0 < c < |clusters| ==> clusters[c] == runs[c]
    else clusters == runs
  }

  lemma InHome(wraps: bool, runs: seq<seq<nat>>, clusters: seq<seq<nat>>, c: nat, i: nat)
    requires Joined(wraps, runs, clusters) && c < |runs| && i in runs[c]
    ensures Home(wraps, runs, c) < |clusters| && i in clusters[Home(wraps, runs, c)]
  {
  }

  lemma JoinDistinct(a: seq<nat>, b: seq<nat>)
    requires Distinct(a) && Distinct(b) && Disjoint(b, a)
    ensures Distinct(a + b)
  {
    forall i, j | 0 <= i < j < |a + b| ensures (a + b)[i] != (a + b)[j] {
      if i < |a| <= j {
        assert b[j - |a|] in b;
      }
    }
  }

  lemma JoinPartition(runs: seq<seq<nat>>, xs: seq<nat>, clusters: seq<seq<nat>>)
    requires Partition(runs, xs) && Joined(true, runs, clusters)
    ensures Partition(clusters, xs)
  {
    var l := |runs| - 1;
    assert Disjoint(runs[0], runs[l]);
    JoinDistinct(runs[l], runs[0]);
    assert forall i :: i in clusters[0] <==> i in runs[l] || i in runs[0];
    forall i | i in xs ensures Listed(clusters, i) {
      assert Listed(runs, i);
      var c :| 0 <= c < |runs| && i in runs[c];
      InHome(true, runs, clusters, c, i);
    }
    forall c, d | 0 <= c < d < |clusters| ensures Disjoint(clusters[c], clusters[d]) {
      assert Disjoint(runs[c], runs[d]) && Disjoint(runs[d], runs[l]);
    }
  }

  lemma SmallAdvance(a: int, b: int, gap: int)
    requires a <= b && b - a <= gap
    ensures Forward(a, b) <= gap
  {
  }

  lemma MidnightAdvance(a: int, b: int, gap: int)
    requires 0 <= b <= a < DAY && b + DAY - a <= gap
    ensures Forward(a, b) <= gap
  {
  }

  lemma RunIsClockOrdered(minutes: seq<int>, gap: int, order: seq<nat>, cut: seq<nat>, runs: seq<seq<nat>>, c: nat)
    requires IsClockOrder(minutes, order) && Runs(Times(minutes, order), gap, order, |order|, cut, runs) && c < |runs|
    ensures ClockOrdered(minutes, gap, runs[c])
  {
    var ts, run := Times(minutes, order), runs[c];
    forall k: nat | 0 < k < |run| ensures Tick(minutes, gap, run, k) {
      var p := RunSteps(ts, gap, order, cut, runs, c, k);
      assert ts[p - 1] <= ts[p];
      SmallAdvance(ts[p - 1], ts[p], gap);
    }
  }

  lemma JoinOrdered(minutes: seq<int>, gap: int, tail: seq<nat>, head: seq<nat>)
    requires ClockOrdered(minutes, gap, tail) && ClockOrdered(minutes, gap, head) && tail != [] && head != []
    requires head[0] < |minutes| && tail[|tail| - 1] < |minutes|
    requires 0 <= minutes[head[0]] <= minutes[tail[|tail| - 1]] < DAY
    requires minutes[head[0]] + DAY - minutes[tail[|tail| - 1]] <= gap
    ensures ClockOrdered(minutes, gap, tail + head)
  {
    var both := tail + head;
    forall k: nat | 0 < k < |both| ensures Tick(minutes, gap, both, k) {
      if k < |tail| {
        assert Tick(minutes, gap, tail, k);
      } else if k > |tail| {
        assert Tick(minutes, gap, head, k - |tail|);
      } else {
        MidnightAdvance(minutes[tail[|tail| - 1]], minutes[head[0]], gap);
      }
    }
  }

  lemma OuterEntries(ts: seq<int>, gap: int, order: seq<nat>, cut: seq<nat>, runs: seq<seq<nat>>)
    requires order != [] && Increasing(ts) && Runs(ts, gap, order, |order|, cut, runs)
    ensures runs[0] != [] && runs[0][0] == order[0] && ts[0] <= ts[|ts| - 1]
    ensures var tail := runs[|runs| - 1]; tail != [] && tail[|tail| - 1] == order[|order| - 1]
  {
  }

  lemma MergedPartition(minutes: seq<int>, gap: int, order: seq<nat>, cut: seq<nat>, runs: seq<seq<nat>>,
                        clusters: seq<seq<nat>>)
    requires OnDial(minutes) && IsClockOrder(minutes, order)
    requires Runs(Times(minutes, order), gap, order, |order|, cut, runs)
    requires order != [] && Joined(WrapsAround(minutes, gap, order, runs), runs, clusters)
    ensures Partition(clusters, order)
    ensures forall c :: 0 <= c < |clusters| ==> ClockOrdered(minutes, gap, clusters[c])
  {
    RunsPartition(Times(minutes, order), gap, order, cut, runs);
    forall c | 0 <= c < |runs| ensures ClockOrdered(minutes, gap, runs[c]) {
      RunIsClockOrdered(minutes, gap, order, cut, runs, c);
    }
    hide Partition, Runs, ClockOrdered, Distinct;
    if WrapsAround(minutes, gap, order, runs) {
      JoinPartition(runs, order, clusters);
      OuterEntries(Times(minutes, order), gap, order, cut, runs);
      JoinOrdered(minutes, gap, runs[|runs| - 1], runs[0]);
    }
  }

  /** The short way round crosses midnight: p is in the first run and q in the last. */
  lemma InOuterRuns(ts: seq<int>, gap: int, order: seq<nat>, cut: seq<nat>, runs: seq<seq<nat>>, p: nat, q: nat)
    requires OnDial(ts) && Increasing(ts) && Runs(ts, gap, order, |order|, cut, runs)
    requires p <= q < |order| && ts[p] + DAY - ts[q] <= gap
    ensures order[p] in runs[0] && order[q] in runs[|runs| - 1]
    ensures ts[0] + DAY - ts[|ts| - 1] <= gap
  {
    var l := |runs| - 1;
    assert ts[0] <= ts[p] && ts[q] <= ts[|ts| - 1];
    CloseSharesRun(ts, gap, cut, 0, p, 0);
    CloseToEnd(ts, gap, cut, q);
    assert runs[0][p] == order[p] && End(cut, l, |order|) == |order| && runs[l][q - cut[l]] == order[q];
  }

  lemma DialCases(a: int, b: int, gap: int)
    requires 0 <= a <= b < DAY && Dist(a, b) <= gap
    ensures b - a <= gap || a + DAY - b <= gap
  {
  }

  /** One step on the circle never leaves a cluster. */
  lemma StepStays(minutes: seq<int>, gap: int, order: seq<nat>, cut: seq<nat>, runs: seq<seq<nat>>,
                  clusters: seq<seq<nat>>, p: nat, q: nat)
    requires OnDial(minutes) && IsClockOrder(minutes, order)
    requires Runs(Times(minutes, order), gap, order, |order|, cut, runs)
    requires order != [] && Joined(WrapsAround(minutes, gap, order, runs), runs, clusters)
    requires p <= q < |order| && Dist(minutes[order[p]], minutes[order[q]]) <= gap
    ensures Together(clusters, order[p], order[q])
  {
    hide Dist, Distinct, Joined;
    var ts, wraps := Times(minutes, order), WrapsAround(minutes, gap, order, runs);
    assert p < q ==> ts[p] <= ts[q];
    DialCases(ts[p], ts[q], gap);
    if ts[q] - ts[p] <= gap {
      var c := NearShareRun(ts, gap, order, cut, runs, p, q);
      InHome(wraps, runs, clusters, c, order[p]);
      InHome(wraps, runs, clusters, c, order[q]);
    } else {
      InOuterRuns(ts, gap, order, cut, runs, p, q);
      InHome(wraps, runs, clusters, 0, order[p]);
      InHome(wraps, runs, clusters, |runs| - 1, order[q]);
    }
  }

  lemma NearIsSymmetric(minutes: seq<int>, gap: int)
    ensures Symmetric(NearOnDial(minutes, gap))
  {
    forall i: nat, j: nat | NearOnDial(minutes, gap)(i, j) ensures NearOnDial(minutes, gap)(j, i) {
      DistSymmetric(minutes[i], minutes[j]);
    }
  }

  lemma TicksAreHops(minutes: seq<int>, gap: int, cluster: seq<nat>, k: nat)
    requires ClockOrdered(minutes, gap, cluster) && 0 < k < |cluster|
    ensures Hop(NearOnDial(minutes, gap), cluster, k)
  {
    assert Tick(minutes, gap, cluster, k);
    DistAtMostForward(minutes[cluster[k - 1]], minutes[cluster[k]]);
  }

  /** Split-then-merge yields exactly the components of the circular relation. */
  lemma MergeGivesComponents(minutes: seq<int>, gap: int, order: seq<nat>, runs: seq<seq<nat>>, clusters: seq<seq<nat>>)
    requires OnDial(minutes) && IsClockOrder(minutes, order) && SplitOf(Times(minutes, order), gap, order, runs)
    requires order != [] && Joined(WrapsAround(minutes, gap, order, runs), runs, clusters)
    ensures DialComponents(minutes, gap, clusters)
  {
    var near := NearOnDial(minutes, gap);
    var cut :| Runs(Times(minutes, order), gap, order, |order|, cut, runs);
    MergedPartition(minutes, gap, order, cut, runs, clusters);
    NearIsSymmetric(minutes, gap);
    forall i, j | i in order && j in order && near(i, j) ensures Together(clusters, i, j) {
      var p: nat :| p < |order| && order[p] == i;
      var q: nat :| q < |order| && order[q] == j;
      if p <= q {
        StepStays(minutes, gap, order, cut, runs, clusters, p, q);
      } else {
        DistSymmetric(minutes[i], minutes[j]);
        StepStays(minutes, gap, order, cut, runs, clusters, q, p);
      }
    }
    forall c, k | 0 <= c < |clusters| && 0 < k < |clusters[c]| ensures Hop(near, clusters[c], k) {
      TicksAreHops(minutes, gap, clusters[c], k);
    }
    assert Grouping(near, order, clusters);
    StepsGiveComponents(near, order, clusters);
    OrderIsIndexes(minutes, gap, order, clusters);
  }

  lemma OrderIsIndexes(minutes: seq<int>, gap: int, order: seq<nat>, clusters: seq<seq<nat>>)
    requires IsClockOrder(minutes, order) && AreComponents(NearOnDial(minutes, gap), order, clusters)
    ensures AreComponents(NearOnDial(minutes, gap), Indexes(|minutes|), clusters)
  {
    var near, all := NearOnDial(minutes, gap), Indexes(|minutes|);
    forall i ensures i in order <==> i in all {
      if i in order {
        var p :| 0 <= p < |order| && order[p] == i;
        assert all[i] == i;
      }
    }
    forall i, j | i in all && j in all ensures Linked(near, order, i, j) <==> Linked(near, all, i, j) {
      if path :| Chain(near, order, path) && path[0] == i && path[|path| - 1] == j {
        SameChain(near, order, near, all, path);
      }
      if path :| Chain(near, all, path) && path[0] == i && path[|path| - 1] == j {
        SameChain(near, all, near, order, path);
      }
    }
  }

  // ---------------------------------------------------- rotation invariance

  function Rotate(minutes: seq<int>, shift: int): (r: seq<int>)
    ensures |r| == |minutes| && OnDial(r)
  {
    seq(|minutes|, i requires 0 <= i < |minutes| => (minutes[i] + shift) % DAY)
  }

  lemma NearRotates(minutes: seq<int>, gap: int, shift: int, a: nat, b: nat)
    ensures NearOnDial(Rotate(minutes, shift), gap)(a, b) == NearOnDial(minutes, gap)(a, b)
  {
    if a < |minutes| && b < |minutes| {
      DistRotates(minutes[a], minutes[b], shift);
    }
  }

  /** Midnight is not special: turning every clock by the same amount leaves the
      grouping of the indexes unchanged, whatever the sort and the merge did. */
  lemma RotationInvariant(minutes: seq<int>, gap: int, shift: int, before: seq<seq<nat>>, after: seq<seq<nat>>,
                          i: nat, j: nat)
    requires DialComponents(minutes, gap, before)
    requires DialComponents(Rotate(minutes, shift), gap, after)
    requires i < |minutes| && j < |minutes|
    ensures Together(before, i, j) <==> Together(after, i, j)
  {
    var near, near' := NearOnDial(minutes, gap), NearOnDial(Rotate(minutes, shift), gap);
    var all := Indexes(|minutes|);
    forall a, b ensures near(a, b) == near'(a, b) {
      NearRotates(minutes, gap, shift, a, b);
    }
    assert all[i] == i && all[j] == j;
    hide NearOnDial, Linked, Partition, ClockOrdered;
    ComponentsAgree(near, all, before, near', all, after, i, j);
  }

  // ------------------------------------------------------ clusters stay apart

  /** Clock time m lies on the step from entry k to entry k2 of the cluster. */
  ghost predicate OnStep(minutes: seq<int>, cluster: seq<nat>, m: int, k: nat, k2: nat) {
    && k <= k2 <= k + 1 && k2 < |cluster| && cluster[k] < |minutes| && cluster[k2] < |minutes|
    && Forward(minutes[cluster[k]], m) <= Forward(minutes[cluster[k]], minutes[cluster[k2]])
  }

  /** m lies on the arc the cluster's entries sweep out, ends included. */
  ghost predicate OnArc(minutes: seq<int>, cluster: seq<nat>, m: int) {
    exists k: nat, k2: nat :: OnStep(minutes, cluster, m, k, k2)
  }

  lemma CrossFar(minutes: seq<int>, gap: int, clusters: seq<seq<nat>>, c: nat, d: nat, i: nat, j: nat)
    requires DialComponents(minutes, gap, clusters) && c < |clusters| && d < |clusters| && c != d
    requires i in clusters[c] && j in clusters[d] && i < |minutes| && j < |minutes|
    ensures Dist(minutes[i], minutes[j]) > gap
  {
    var near, all := NearOnDial(minutes, gap), Indexes(|minutes|);
    assert all[i] == i && all[j] == j;
    if near(i, j) {
      SliceLinks(near, all, [i, j], 0, 1);
      TogetherIsSame(clusters, all, c, d, i, j);
    }
  }

  lemma TogetherIsSame(clusters: seq<seq<nat>>, xs: seq<nat>, c: nat, d: nat, i: nat, j: nat)
    requires Partition(clusters, xs) && c < |clusters| && d < |clusters| && i in clusters[c] && j in clusters[d]
    ensures Together(clusters, i, j) ==> c == d
  {
  }

  lemma ShortStep(minutes: seq<int>, gap: int, cluster: seq<nat>, m: int, k: nat, k2: nat)
    requires gap >= 0 && ClockOrdered(minutes, gap, cluster) && OnStep(minutes, cluster, m, k, k2)
    ensures Forward(minutes[cluster[k]], minutes[cluster[k2]]) <= gap
  {
    if k2 == k + 1 {
      assert Tick(minutes, gap, cluster, k2);
    }
  }

  /** Clock times on the arcs of different clusters are more than gap apart. */
  lemma ClustersStayApart(minutes: seq<int>, gap: int, clusters: seq<seq<nat>>, c: nat, d: nat, m: int, w: int)
    requires DialComponents(minutes, gap, clusters) && c < |clusters| && d < |clusters| && c != d
    requires OnArc(minutes, clusters[c], m) && OnArc(minutes, clusters[d], w)
    ensures Dist(m, w) > gap
  {
    hide AreComponents, Forward, Dist;
    if gap >= 0 {
      var k: nat, k2: nat :| OnStep(minutes, clusters[c], m, k, k2);
      var l: nat, l2: nat :| OnStep(minutes, clusters[d], w, l, l2);
      ShortStep(minutes, gap, clusters[c], m, k, k2);
      ShortStep(minutes, gap, clusters[d], w, l, l2);
      CrossFar(minutes, gap, clusters, c, d, clusters[c][k], clusters[d][l]);
      CrossFar(minutes, gap, clusters, c, d, clusters[c][k], clusters[d][l2]);
      CrossFar(minutes, gap, clusters, c, d, clusters[c][k2], clusters[d][l]);
      ArcsStayApart(minutes[clusters[c][k]], minutes[clusters[c][k2]], m, minutes[clusters[d][l]],
          minutes[clusters[d][l2]], w, gap);
    }
  }

  // ---------------------------------------------------- means of short clusters

  /** How far the clock runs from a cluster's first entry to its last. */
  function Sweep(minutes: seq<int>, cluster: seq<nat>): nat
    requires Below(cluster, |minutes|)
  {
    if |cluster| < 2 then 0
    else Sweep(minutes, cluster[..|cluster| - 1])
         + Forward(minutes[cluster[|cluster| - 2]], minutes[cluster[|cluster| - 1]])
  }

  lemma {:induction false} SweepReaches(minutes: seq<int>, cluster: seq<nat>, k: nat)
    requires Below(cluster, |minutes|) && k < |cluster| && Sweep(minutes, cluster) < DAY
    ensures var way := Forward(minutes[cluster[0]], minutes[cluster[k]]);
            way <= Sweep(minutes, cluster) && (k == |cluster| - 1 ==> way == Sweep(minutes, cluster))
    decreases |cluster|
  {
    hide Forward;
    var l := |cluster| - 1;
    var first := minutes[cluster[0]];
    if l == 0 {
      ForwardToSelf(first);
    } else {
      var front := cluster[..l];
      SweepReaches(minutes, front, if k < l then k else l - 1);
      if k == l {
        ForwardAdds(first, minutes[cluster[l - 1]], minutes[cluster[l]]);
      }
    }
  }

  /** What lies between the first entry and the last, as the clock runs, is on the arc. */
  lemma {:induction false} SweptIsArc(minutes: seq<int>, cluster: seq<nat>, m: int)
    requires Below(cluster, |minutes|) && cluster != []
    requires Forward(minutes[cluster[0]], m) <= Sweep(minutes, cluster) < DAY
    ensures OnArc(minutes, cluster, m)
    decreases |cluster|
  {
    hide Forward;
    var l := |cluster| - 1;
    var first := minutes[cluster[0]];
    if l == 0 {
      ForwardToSelf(first);
      assert OnStep(minutes, cluster, m, 0, 0);
    } else if Forward(first, m) <= Sweep(minutes, cluster[..l]) {
      SweptIsArc(minutes, cluster[..l], m);
      var k: nat, k2: nat :| OnStep(minutes, cluster[..l], m, k, k2);
      assert OnStep(minutes, cluster, m, k, k2);
    } else {
      SweepReaches(minutes, cluster[..l], l - 1);
      ForwardBetween(first, minutes[cluster[l - 1]], m);
      assert OnStep(minutes, cluster, m, l - 1, l);
    }
  }

  function Pick<T>(xs: seq<T>, cluster: seq<nat>): (ys: seq<T>)
    requires Below(cluster, |xs|)
    ensures |ys| == |cluster| && forall i :: 0 <= i < |ys| ==> ys[i] == xs[cluster[i]]
  {
    seq(|cluster|, i requires 0 <= i < |cluster| => xs[cluster[i]])
  }

  /** The circular mean of a cluster that spans less than half the day lies on its arc. */
  lemma MeanOnOwnArc(minutes: seq<int>, cluster: seq<nat>, mean: seq<int> -> int)
    requires Below(cluster, |minutes|) && cluster != [] && 2 * Sweep(minutes, cluster) < DAY
    requires IsCircularMean(mean)
    ensures OnArc(minutes, cluster, mean(Pick(minutes, cluster)))
  {
    hide Forward, IsCircularMean;
    var l, ts := |cluster| - 1, Pick(minutes, cluster);
    var first, last := minutes[cluster[0]], minutes[cluster[l]];
    SweepReaches(minutes, cluster, l);
    forall i | 0 <= i < |ts| ensures Forward(first, ts[i]) <= Forward(first, last) {
      SweepReaches(minutes, cluster, i);
    }
    assert ts[l] == last;
    MeanOfShortArc(mean, ts, first, last);
    SweptIsArc(minutes, cluster, mean(ts));
  }
}
