/** Times of day on the 24-hour circle, in whole seconds (src/pae/miner/stats.py). */
module Circle {

  const DAY := 86400
  const HALF_HOUR := 1800

  /** The tenth of a minute to which stored clock times are rounded. */
  const TENTH := 6

  function Abs(x: int): nat { if x < 0 then -x else x }

  /** Signed minimal distance a - b, in (-DAY/2, DAY/2]. */
  function CircularDiff(a: int, b: int): int {
    var d := (a - b) % DAY;
    if 2 * d > DAY then d - DAY else d
  }

  /** It is the difference of two of the days the clock times could belong to, and the only
      one in that range. */
  lemma DiffIsMinimal(a: int, b: int, n: int)
    ensures -DAY < 2 * CircularDiff(a, b) <= DAY
    ensures -DAY < 2 * (a - b + n * DAY) <= DAY <==> CircularDiff(a, b) == a - b + n * DAY
  {
    var d, q := (a - b) % DAY, (a - b) / DAY;
    assert a - b + n * DAY == d + (q + n) * DAY;
  }

  function Dist(a: int, b: int): nat {
    Abs(CircularDiff(a, b))
  }

  /** Seconds from a forward to the next time the clock shows b. */
  function Forward(a: int, b: int): nat {
    (b - a) % DAY
  }

  ghost predicate OnDial(s: seq<int>) {
    forall i :: 0 <= i < |s| ==> 0 <= s[i] < DAY
  }

  lemma ModShift(x: int, k: int)
    ensures (x + k * DAY) % DAY == x % DAY
  {
  }

  /** The circular distance is the least |a - b| over all pairs of days the two
      clock times could belong to. */
  lemma DistIsLeast(a: int, b: int, k: int)
    ensures Dist(a, b) <= Abs(a - b + k * DAY)
    ensures exists n: int :: Dist(a, b) == Abs(a - b + n * DAY)
  {
    var d, q := (a - b) % DAY, (a - b) / DAY;
    assert a - b == q * DAY + d;
    assert a - b + (-q) * DAY == d;
    assert a - b + (-q - 1) * DAY == d - DAY;
    assert Dist(a, b) == Abs(a - b + (if 2 * d > DAY then -q - 1 else -q) * DAY);
    assert a - b + k * DAY == (q + k) * DAY + d;
  }

  lemma DistFromOffset(a: int, b: int, k: int, bound: int)
    requires Abs(a - b + k * DAY) <= bound
    ensures Dist(a, b) <= bound
  {
  }

  lemma DistSymmetric(a: int, b: int)
    ensures Dist(a, b) == Dist(b, a)
  {
  }

  lemma Triangle(a: int, b: int, c: int)
    ensures Dist(a, c) <= Dist(a, b) + Dist(b, c)
  {
    DistIsLeast(a, b, 0);
    DistIsLeast(b, c, 0);
    var n: int :| Dist(a, b) == Abs(a - b + n * DAY);
    var m: int :| Dist(b, c) == Abs(b - c + m * DAY);
    assert a - c + (n + m) * DAY == (a - b + n * DAY) + (b - c + m * DAY);
    DistIsLeast(a, c, n + m);
  }

  /** Moving every clock by the same amount keeps all distances. */
  lemma DistRotates(a: int, b: int, shift: int)
    ensures Dist((a + shift) % DAY, (b + shift) % DAY) == Dist(a, b)
  {
    var p, q := (a + shift) / DAY, (b + shift) / DAY;
    var a', b' := (a + shift) % DAY, (b + shift) % DAY;
    assert a' - b' == a - b + (q - p) * DAY;
    ModShift(a - b, q - p);
  }

  lemma DistAtMostForward(a: int, b: int)
    ensures Dist(a, b) <= Forward(a, b)
  {
  }

  lemma FarOffset(a: int, b: int, k: int, gap: int)
    requires Dist(a, b) > gap
    ensures Abs(a - b + k * DAY) > gap
  {
    DistIsLeast(a, b, k);
  }

  lemma Ahead(a: int, b: int) returns (k: int)
    ensures b == a + Forward(a, b) + k * DAY
  {
    k := (b - a) / DAY;
  }

  /** Two short arcs whose ends are all further than gap apart are further than gap
      apart throughout. */
  lemma ArcsStayApart(x: int, x': int, m: int, y: int, y': int, w: int, gap: int)
    requires Forward(x, x') <= gap && Forward(x, m) <= Forward(x, x')
    requires Forward(y, y') <= gap && Forward(y, w) <= Forward(y, y')
    requires Dist(x, y) > gap && Dist(x, y') > gap && Dist(x', y) > gap
    ensures Dist(m, w) > gap
  {
    hide Forward, Dist;
    var kx := Ahead(x, x');
    var km := Ahead(x, m);
    var ky := Ahead(y, y');
    var kw := Ahead(y, w);
    var k := Ahead(x, y);
    ForwardOnDial(x, y);
    FarOffset(x, y, k, gap);
    FarOffset(x, y, k + 1, gap);
    FarOffset(x', y, k - kx, gap);
    FarOffset(x, y', k + ky + 1, gap);
    DistIsLeast(m, w, 0);
    var n: int :| Dist(m, w) == Abs(m - w + n * DAY);
    var turns := n + km - k - kw;
    assert m - w + n * DAY == Forward(x, m) - Forward(x, y) - Forward(y, w) + turns * DAY;
    assert turns <= 0 || turns >= 1;
  }

  lemma ForwardOnDial(a: int, b: int)
    ensures 0 <= Forward(a, b) < DAY
  {
  }

  /** Seen from s, the way from a to b is the difference of their positions. */
  lemma ForwardBetween(s: int, a: int, b: int)
    ensures Forward(a, b)
         == Forward(s, b) - Forward(s, a) + if Forward(s, b) < Forward(s, a) then DAY else 0
  {
    hide Forward;
    var j := Ahead(s, a);
    var k := Ahead(s, b);
    var n := Ahead(a, b);
    ForwardOnDial(s, a);
    ForwardOnDial(s, b);
    ForwardOnDial(a, b);
    assert Forward(a, b) == Forward(s, b) - Forward(s, a) + (k - j - n) * DAY;
  }

  lemma ForwardAdds(s: int, a: int, b: int)
    requires Forward(s, a) + Forward(a, b) < DAY
    ensures Forward(s, b) == Forward(s, a) + Forward(a, b)
  {
    ForwardBetween(s, a, b);
  }

  lemma NextSecond(s: int, m: int)
    ensures Forward(s, m + 1) == if Forward(s, m) == DAY - 1 then 0 else Forward(s, m) + 1
  {
  }

  lemma ForwardToSelf(s: int)
    ensures Forward(s, s) == 0
  {
  }

  lemma DistAtMostHalf(a: int, b: int)
    ensures 2 * Dist(a, b) <= DAY
  {
  }

  lemma DistOfTenths(a: int, b: int)
    requires a % TENTH == 0 && b % TENTH == 0
    ensures Dist(a, b) % TENTH == 0
  {
    var d, q := (a - b) % DAY, (a - b) / DAY;
    assert d == a - b - q * DAY;
  }

  /** What rounding to tenths leaves of a distance above gap: gap rounded down; or, if no
      clock time is moved by half a tenth, up when the remainder is four or five seconds. */
  function Reliable(gap: int, ties: bool): int {
    gap - gap % TENTH + if !ties && gap % TENTH >= TENTH - 2 then TENTH else 0
  }

  lemma RoundedFarApart(m: int, w: int, a: int, b: int, gap: int, ties: bool)
    requires a % TENTH == 0 && b % TENTH == 0 && Abs(a - m) <= TENTH / 2 && Abs(b - w) <= TENTH / 2
    requires ties || (Abs(a - m) < TENTH / 2 && Abs(b - w) < TENTH / 2)
    requires Dist(m, w) > gap
    ensures Dist(a, b) >= Reliable(gap, ties)
  {
    hide Dist;
    var slack := if ties then TENTH / 2 else TENTH / 2 - 1;
    DistFromOffset(m, a, 0, slack);
    DistFromOffset(b, w, 0, slack);
    Triangle(m, a, w);
    Triangle(a, b, w);
    DistOfTenths(a, b);
  }
}
