/** Splitting a list wherever consecutive positions on an axis are more than a gap
    apart: the loop shared by the time-of-day clustering and the proposal groups. */
module Splitting {
  import opened Sorting
  import opened Components

  ghost predicate Increasing(ts: seq<int>) {
    forall p, q :: 0 <= p < q < |ts| ==> ts[p] <= ts[q]
  }

  ghost function End(cut: seq<nat>, c: nat, k: nat): nat {
    if c + 1 < |cut| then cut[c + 1] else k
  }

  /** The first k positions, split into consecutive non-empty stretches. */
  ghost predicate Stretches(cut: seq<nat>, k: nat) {
    && |cut| > 0 && cut[0] == 0
    && forall c {:trigger End(cut, c, k)} :: 0 <= c < |cut| ==> cut[c] < End(cut, c, k) <= k
  }

  ghost predicate WideBefore(ts: seq<int>, gap: int, p: nat)
    requires 0 < p < |ts|
  {
    ts[p] - ts[p - 1] > gap
  }

  /** The list is cut exactly where consecutive positions are more than gap apart. */
  ghost predicate CutAtWideGaps(ts: seq<int>, gap: int, k: nat, cut: seq<nat>)
    requires k <= |ts|
  {
    forall p: nat :: 0 < p < k ==> (WideBefore(ts, gap, p) <==> p in cut)
  }

  /** run is order[a..b], entry by entry. */
  ghost predicate Stretch<T(!new)>(run: seq<T>, order: seq<T>, a: nat, b: nat) {
    && a < b <= |order| && |run| == b - a
    && forall k :: 0 <= k < |run| ==> run[k] == order[a + k]
  }

  ghost predicate Slices<T(!new)>(order: seq<T>, cut: seq<nat>, k: nat, runs: seq<seq<T>>) {
    |runs| == |cut| && forall c :: 0 <= c < |cut| ==> Stretch(runs[c], order, cut[c], End(cut, c, k))
  }

  /** The first k entries of order, at positions ts, split at the wide gaps. */
  ghost predicate Runs<T(!new)>(ts: seq<int>, gap: int, order: seq<T>, k: nat, cut: seq<nat>, runs: seq<seq<T>>) {
    k <= |order| == |ts| && Stretches(cut, k) && CutAtWideGaps(ts, gap, k, cut) && Slices(order, cut, k, runs)
  }

  ghost predicate SplitOf<T(!new)>(ts: seq<int>, gap: int, order: seq<T>, runs: seq<seq<T>>) {
    exists cut :: Runs(ts, gap, order, |order|, cut, runs)
  }

  // -------------------------------------------------------------- building runs

  lemma FirstRun<T(!new)>(ts: seq<int>, gap: int, order: seq<T>)
    requires |order| == |ts| && order != []
    ensures Runs(ts, gap, order, 1, [0], [[order[0]]])
  {
  }

  lemma LastEntry<T(!new)>(order: seq<T>, cut: seq<nat>, k: nat, runs: seq<seq<T>>)
    requires 0 < k <= |order| && Stretches(cut, k) && Slices(order, cut, k, runs)
    ensures runs != []
    ensures var last := runs[|runs| - 1]; last != [] && last[|last| - 1] == order[k - 1]
  {
  }

  lemma ExtendByCut<T(!new)>(ts: seq<int>, gap: int, order: seq<T>, k: nat, cut: seq<nat>, runs: seq<seq<T>>)
    requires 0 < k < |order| && Runs(ts, gap, order, k, cut, runs) && WideBefore(ts, gap, k)
    ensures Runs(ts, gap, order, k + 1, cut + [k], runs + [[order[k]]])
  {
    var cut', runs' := cut + [k], runs + [[order[k]]];
    assert forall c :: 0 <= c < |cut| ==> End(cut', c, k + 1) == End(cut, c, k);
    assert Stretches(cut', k + 1);
    assert CutAtWideGaps(ts, gap, k + 1, cut');
  }

  lemma ExtendLastRun<T(!new)>(ts: seq<int>, gap: int, order: seq<T>, k: nat, cut: seq<nat>, runs: seq<seq<T>>)
    requires 0 < k < |order| && Runs(ts, gap, order, k, cut, runs) && !WideBefore(ts, gap, k)
    ensures Runs(ts, gap, order, k + 1, cut, runs[|runs| - 1 := runs[|runs| - 1] + [order[k]]])
  {
  }

  // --------------------------------------------------------- what runs contain

  lemma RunOf(cut: seq<nat>, k: nat, p: nat) returns (c: nat)
    requires Stretches(cut, k) && p < k
    ensures c < |cut| && cut[c] <= p < End(cut, c, k)
  {
    c := 0;
    while End(cut, c, k) <= p
      invariant c < |cut| && cut[c] <= p
      decreases |cut| - c
    {
      c := c + 1;
    }
  }

  lemma {:induction false} StretchesIncrease(cut: seq<nat>, k: nat, c: nat, d: nat)
    requires Stretches(cut, k) && c < d < |cut|
    ensures End(cut, c, k) <= cut[d] < k
    decreases d
  {
    assert cut[d - 1] < End(cut, d - 1, k) && cut[d] < End(cut, d, k);
    if c + 1 < d {
      StretchesIncrease(cut, k, c, d - 1);
    }
  }

  lemma NoCutInside(cut: seq<nat>, k: nat, c: nat, p: nat)
    requires Stretches(cut, k) && c < |cut| && cut[c] < p < End(cut, c, k)
    ensures p !in cut
  {
    forall d | 0 <= d < |cut| ensures cut[d] != p {
      if d < c {
        StretchesIncrease(cut, k, d, c);
      } else if c < d {
        StretchesIncrease(cut, k, c, d);
      }
    }
  }

  lemma CutSeparates(ts: seq<int>, gap: int, cut: seq<nat>, p: nat, e: nat, q: nat)
    requires Increasing(ts) && CutAtWideGaps(ts, gap, |ts|, cut)
    requires e in cut && p < e <= q < |ts|
    ensures ts[q] - ts[p] > gap
  {
  }

  /** Two positions no further than gap apart share a run. */
  lemma CloseSharesRun(ts: seq<int>, gap: int, cut: seq<nat>, p: nat, q: nat, c: nat)
    requires Increasing(ts) && Stretches(cut, |ts|) && CutAtWideGaps(ts, gap, |ts|, cut)
    requires p <= q < |ts| && c < |cut| && cut[c] <= p < End(cut, c, |ts|)
    ensures ts[q] - ts[p] <= gap ==> q < End(cut, c, |ts|)
  {
    if End(cut, c, |ts|) <= q {
      CutSeparates(ts, gap, cut, p, cut[c + 1], q);
    }
  }

  lemma CloseToEnd(ts: seq<int>, gap: int, cut: seq<nat>, q: nat)
    requires Increasing(ts) && Stretches(cut, |ts|) && CutAtWideGaps(ts, gap, |ts|, cut)
    requires q < |ts|
    ensures ts[|ts| - 1] - ts[q] <= gap ==> cut[|cut| - 1] <= q
  {
    var e := cut[|cut| - 1];
    assert e < End(cut, |cut| - 1, |ts|);
    if q < e {
      CutSeparates(ts, gap, cut, q, e, |ts| - 1);
    }
  }

  /** Consecutive entries of a run are at most gap apart. */
  lemma RunSteps<T(!new)>(ts: seq<int>, gap: int, order: seq<T>, cut: seq<nat>, runs: seq<seq<T>>, c: nat,
                   k: nat) returns (p: nat)
    requires Runs(ts, gap, order, |order|, cut, runs) && c < |runs| && 0 < k < |runs[c]|
    ensures 0 < p < |order| && runs[c][k - 1] == order[p - 1] && runs[c][k] == order[p] && ts[p] - ts[p - 1] <= gap
  {
    assert Stretch(runs[c], order, cut[c], End(cut, c, |order|));
    p := cut[c] + k;
    NoCutInside(cut, |order|, c, p);
    assert !WideBefore(ts, gap, p);
  }

  lemma RunsAreDisjoint<T(!new)>(order: seq<T>, cut: seq<nat>, runs: seq<seq<T>>, c: nat, d: nat)
    requires Distinct(order) && Stretches(cut, |order|) && Slices(order, cut, |order|, runs) && c < d < |runs|
    ensures Disjoint(runs[c], runs[d])
  {
    StretchesIncrease(cut, |order|, c, d);
    forall x | x in runs[c] ensures x !in runs[d] {
      var k :| 0 <= k < |runs[c]| && runs[c][k] == x;
      assert order[cut[c] + k] == x;
      forall m | 0 <= m < |runs[d]| ensures runs[d][m] != x {
        assert runs[d][m] == order[cut[d] + m];
      }
    }
  }

  lemma RunsCover<T(!new)>(order: seq<T>, cut: seq<nat>, runs: seq<seq<T>>, x: T)
    requires Stretches(cut, |order|) && Slices(order, cut, |order|, runs) && x in order
    ensures Listed(runs, x)
  {
    var p: nat :| p < |order| && order[p] == x;
    var c := RunOf(cut, |order|, p);
    assert runs[c][p - cut[c]] == x;
  }

  lemma RunsPartition<T(!new)>(ts: seq<int>, gap: int, order: seq<T>, cut: seq<nat>, runs: seq<seq<T>>)
    requires Distinct(order) && Runs(ts, gap, order, |order|, cut, runs)
    ensures Partition(runs, order)
  {
    forall x | x in order ensures Listed(runs, x) {
      RunsCover(order, cut, runs, x);
    }
    forall c, d | 0 <= c < d < |runs| ensures Disjoint(runs[c], runs[d]) {
      RunsAreDisjoint(order, cut, runs, c, d);
    }
    forall c | 0 <= c < |runs| ensures runs[c] != [] && Within(runs[c], order) && Distinct(runs[c]) {
      assert Stretch(runs[c], order, cut[c], End(cut, c, |order|));
    }
  }

  lemma NearShareRun<T(!new)>(ts: seq<int>, gap: int, order: seq<T>, cut: seq<nat>, runs: seq<seq<T>>, p: nat,
                       q: nat) returns (c: nat)
    requires Increasing(ts) && Runs(ts, gap, order, |order|, cut, runs)
    requires p <= q < |order| && ts[q] - ts[p] <= gap
    ensures c < |runs| && order[p] in runs[c] && order[q] in runs[c]
  {
    c := RunOf(cut, |order|, p);
    CloseSharesRun(ts, gap, cut, p, q, c);
    assert runs[c][p - cut[c]] == order[p] && runs[c][q - cut[c]] == order[q];
  }

  lemma CloseTogether<T(!new)>(ts: seq<int>, gap: int, order: seq<T>, cut: seq<nat>, runs: seq<seq<T>>, p: nat, q: nat)
    requires Increasing(ts) && Runs(ts, gap, order, |order|, cut, runs) && p <= q < |order|
    ensures ts[q] - ts[p] <= gap ==> Together(runs, order[p], order[q]) && Together(runs, order[q], order[p])
  {
    if ts[q] - ts[p] <= gap {
      var c := NearShareRun(ts, gap, order, cut, runs, p, q);
    }
  }
}
