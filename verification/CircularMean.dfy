/** circular_mean (src/pae/miner/stats.py): the direction of a sum of unit vectors, and
    why it stays on the arc of what it averages while that spans less than half a day. */
module CircularMean {
  import opened Circle

  /** (cosine, sine). */
  datatype Vec = Vec(x: real, y: real)

  function Plus(u: Vec, v: Vec): Vec { Vec(u.x + v.x, u.y + v.y) }

  /** Positive when v lies less than half a turn ahead of u, zero when they are parallel. */
  function Cross(u: Vec, v: Vec): real { u.x * v.y - u.y * v.x }

  /** dir(t) is the direction of the hand of a 24-hour dial: of (cos, sin), only the sign
      of the sine of a difference is used. */
  ghost predicate IsDial(dir: int -> Vec) {
    forall a, b :: Turns(dir, a, b)
  }

  ghost predicate Turns(dir: int -> Vec, a: int, b: int) {
    && (Cross(dir(a), dir(b)) > 0.0 <==> 0 < 2 * Forward(a, b) < DAY)
    && (Cross(dir(a), dir(b)) == 0.0 <==> Forward(a, b) == 0 || 2 * Forward(a, b) == DAY)
  }

  function SumOf(dir: int -> Vec, ts: seq<int>): Vec {
    if ts == [] then Vec(0.0, 0.0) else Plus(SumOf(dir, ts[..|ts| - 1]), dir(ts[|ts| - 1]))
  }

  /** v points somewhere from second m up to, not including, second m + 1. */
  predicate PointsAt(dir: int -> Vec, v: Vec, m: int) {
    Cross(dir(m), v) >= 0.0 && Cross(v, dir(m + 1)) > 0.0
  }

  /** mean(ts) is the second of the day in which the direction of the sum lies, if the sum
      has one. */
  ghost predicate IsMeanFor(dir: int -> Vec, mean: seq<int> -> int) {
    forall ts :: ts != [] && SumOf(dir, ts) != Vec(0.0, 0.0) ==>
      0 <= mean(ts) < DAY && PointsAt(dir, SumOf(dir, ts), mean(ts))
  }

  ghost predicate IsCircularMean(mean: seq<int> -> int) {
    exists dir :: IsDial(dir) && IsMeanFor(dir, mean)
  }

  // ------------------------------------------------------------- plane geometry

  lemma CrossPlus(u: Vec, v: Vec, w: Vec)
    ensures Cross(u, Plus(v, w)) == Cross(u, v) + Cross(u, w)
    ensures Cross(Plus(v, w), u) == Cross(v, u) + Cross(w, u)
  {
  }

  /** v combines a and b, so its turn to w combines theirs. */
  lemma CrossCombines(a: Vec, b: Vec, v: Vec, w: Vec)
    ensures Cross(a, b) * Cross(v, w) == Cross(v, b) * Cross(a, w) + Cross(a, v) * Cross(b, w)
  {
  }

  lemma SameSign(p: real, q: real)
    ensures p > 0.0 && q > 0.0 ==> p * q > 0.0
    ensures p >= 0.0 && q >= 0.0 ==> p * q >= 0.0
    ensures p > 0.0 && q <= 0.0 ==> p * q <= 0.0
    ensures p >= 0.0 && q <= 0.0 ==> p * q <= 0.0
  {
  }

  /** What lies on one side of seconds m and m + 1 lies on that side of every vector
      pointing in between. */
  lemma PointsBetween(dir: int -> Vec, v: Vec, m: int, w: Vec)
    requires IsDial(dir) && PointsAt(dir, v, m)
    ensures Cross(dir(m), w) <= 0.0 && Cross(dir(m + 1), w) <= 0.0 ==> Cross(v, w) <= 0.0
    ensures Cross(dir(m), w) > 0.0 && Cross(dir(m + 1), w) >= 0.0 ==> Cross(v, w) > 0.0
  {
    var a, b := dir(m), dir(m + 1);
    assert Turns(dir, m, m + 1);
    assert Forward(m, m + 1) == 1;
    hide Cross;
    CrossCombines(a, b, v, w);
    SameSign(Cross(v, b), Cross(a, w));
    SameSign(Cross(a, v), Cross(b, w));
    SameSign(Cross(a, b), Cross(v, w));
  }

  lemma CrossSwaps(u: Vec, v: Vec)
    ensures Cross(u, v) == -Cross(v, u)
  {
  }

  // --------------------------------------------------------- sums on a short arc

  lemma {:induction false} SumAhead(dir: int -> Vec, ts: seq<int>, s: int)
    requires IsDial(dir) && forall i :: 0 <= i < |ts| ==> 2 * Forward(s, ts[i]) < DAY
    ensures Cross(dir(s), SumOf(dir, ts)) >= 0.0
  {
    if ts != [] {
      var l := |ts| - 1;
      SumAhead(dir, ts[..l], s);
      CrossPlus(dir(s), SumOf(dir, ts[..l]), dir(ts[l]));
      assert Turns(dir, s, ts[l]);
    }
  }

  lemma {:induction false} SumBehind(dir: int -> Vec, ts: seq<int>, w: int)
    requires IsDial(dir) && forall i :: 0 <= i < |ts| ==> 0 < 2 * Forward(ts[i], w) <= DAY
    ensures Cross(SumOf(dir, ts), dir(w)) >= 0.0
    ensures (exists i :: 0 <= i < |ts| && 2 * Forward(ts[i], w) < DAY) ==> Cross(SumOf(dir, ts), dir(w)) > 0.0
  {
    if ts != [] {
      var l := |ts| - 1;
      SumBehind(dir, ts[..l], w);
      CrossPlus(dir(w), SumOf(dir, ts[..l]), dir(ts[l]));
      assert Turns(dir, ts[l], w);
      if i :| 0 <= i < |ts| && 2 * Forward(ts[i], w) < DAY {
        assert i < l ==> ts[..l][i] == ts[i];
      }
    }
  }

  /** Behind the arc from s to e, or past its end, lies no second the sum can point at. */
  lemma OffTheArc(dir: int -> Vec, v: Vec, s: int, e: int, m: int)
    requires IsDial(dir) && PointsAt(dir, v, m) && 2 * Forward(s, e) < DAY
    requires Cross(dir(s), v) >= 0.0 && Cross(v, dir(e + 1)) > 0.0
    ensures Forward(s, m) <= Forward(s, e)
  {
    hide Cross, Forward;
    if 2 * Forward(s, m) > DAY {
      BeforeTheStart(s, m);
      assert Turns(dir, m, s) && Turns(dir, m + 1, s);
      PointsBetween(dir, v, m, dir(s));
      CrossSwaps(dir(s), v);
    } else if Forward(s, m) > Forward(s, e) {
      PastTheEnd(s, e, m);
      assert Turns(dir, m, e + 1) && Turns(dir, m + 1, e + 1);
      PointsBetween(dir, v, m, dir(e + 1));
    }
  }

  lemma BeforeTheStart(s: int, m: int)
    requires 2 * Forward(s, m) > DAY
    ensures 0 < 2 * Forward(m, s) < DAY && 2 * Forward(m + 1, s) < DAY
  {
    hide Forward;
    assert Forward(s, s) == 0 by { ForwardToSelf(s); }
    ForwardBetween(s, m, s);
    ForwardBetween(s, m + 1, s);
    NextSecond(s, m);
  }

  lemma PastTheEnd(s: int, e: int, m: int)
    requires Forward(s, e) < Forward(s, m) && 2 * Forward(s, m) <= DAY
    ensures Forward(m, e + 1) == 0 || 2 * Forward(m, e + 1) >= DAY
    ensures 2 * Forward(m + 1, e + 1) >= DAY
  {
    hide Forward;
    NextSecond(s, e);
    NextSecond(s, m);
    ForwardBetween(s, m, e + 1);
    ForwardBetween(s, m + 1, e + 1);
  }

  /** Of clock times on an arc of less than half a day, the circular mean is on that arc. */
  lemma MeanOfShortArc(mean: seq<int> -> int, ts: seq<int>, s: int, e: int)
    requires IsCircularMean(mean) && e in ts && 2 * Forward(s, e) < DAY
    requires forall i :: 0 <= i < |ts| ==> Forward(s, ts[i]) <= Forward(s, e)
    ensures 0 <= mean(ts) < DAY && Forward(s, mean(ts)) <= Forward(s, e)
  {
    var dir :| IsDial(dir) && IsMeanFor(dir, mean);
    var v := SumOf(dir, ts);
    forall i | 0 <= i < |ts|
      ensures 2 * Forward(s, ts[i]) < DAY && 0 < 2 * Forward(ts[i], e + 1) <= DAY
      ensures ts[i] == e ==> 2 * Forward(ts[i], e + 1) < DAY
    {
      BeforeTheEnd(s, e, ts[i]);
    }
    SumAhead(dir, ts, s);
    SumBehind(dir, ts, e + 1);
    assert v != Vec(0.0, 0.0);
    OffTheArc(dir, v, s, e, mean(ts));
  }

  lemma BeforeTheEnd(s: int, e: int, t: int)
    requires Forward(s, t) <= Forward(s, e) && 2 * Forward(s, e) < DAY
    ensures 0 < 2 * Forward(t, e + 1) <= DAY && (t == e ==> Forward(t, e + 1) == 1)
  {
    hide Forward;
    NextSecond(s, e);
    ForwardBetween(s, t, e + 1);
  }

  lemma MeanOfOne(mean: seq<int> -> int, t: int)
    requires IsCircularMean(mean) && 0 <= t < DAY
    ensures mean([t]) == t
  {
    ForwardToSelf(t);
    MeanOfShortArc(mean, [t], t, t);
  }
}
