/** That circular means exist: a dial on whole seconds, and a second for every direction. */
module Dials {
  import opened Circle
  import opened CircularMean

  const QUARTER := 21600
  const SIDE: real := 21600.0

  /** A quarter of the way round, along a straight side. */
  function Side(r: int): Vec { Vec(SIDE - r as real, r as real) }

  function Turned(q: int, v: Vec): Vec {
    if q == 0 then v else if q == 1 then Vec(-v.y, v.x) else if q == 2 then Vec(-v.x, -v.y) else Vec(v.y, -v.x)
  }

  /** The hand's tip moves on a square with its corners at 0, 6, 12 and 18 o'clock. */
  function Hand(t: int): Vec { Turned(Quarter(t), Side(t % QUARTER)) }

  lemma CrossTurned(p: int, q: int, u: Vec, v: Vec)
    requires 0 <= p < 4 && 0 <= q < 4
    ensures Cross(Turned(p, u), Turned(q, v)) == Cross(u, Turned((q - p) % 4, v))
  {
  }

  lemma TimesSide(x: real)
    ensures (SIDE * x > 0.0 <==> x > 0.0) && (SIDE * x == 0.0 <==> x == 0.0)
  {
  }

  /** Points on one side, or on opposite sides. */
  lemma AlongSides(a: real, b: real)
    ensures Cross(Vec(SIDE - a, a), Vec(SIDE - b, b)) == SIDE * (b - a)
    ensures Cross(Vec(SIDE - a, a), Turned(2, Vec(SIDE - b, b))) == SIDE * (a - b)
  {
  }

  /** Points on neighbouring sides. */
  lemma RoundCorners(a: real, b: real)
    requires 0.0 <= a < SIDE && 0.0 <= b < SIDE
    ensures Cross(Vec(SIDE - a, a), Turned(1, Vec(SIDE - b, b))) > 0.0
    ensures Cross(Vec(SIDE - a, a), Turned(3, Vec(SIDE - b, b))) < 0.0
  {
    SameSign(SIDE - a, SIDE - b);
    SameSign(a, b);
    assert Cross(Vec(SIDE - a, a), Turned(1, Vec(SIDE - b, b))) == (SIDE - a) * (SIDE - b) + a * b;
    assert Cross(Vec(SIDE - a, a), Turned(3, Vec(SIDE - b, b))) == -((SIDE - a) * (SIDE - b) + a * b);
  }

  /** Signs of the turn between two sides, k quarters apart. */
  lemma SideTurns(r: int, s: int, k: int)
    requires 0 <= r < QUARTER && 0 <= s < QUARTER && 0 <= k < 4
    ensures var x := Cross(Side(r), Turned(k, Side(s)));
            && (x > 0.0 <==> (k == 0 && s > r) || k == 1 || (k == 2 && s < r))
            && (x == 0.0 <==> (k == 0 || k == 2) && s == r)
  {
    var a, b := r as real, s as real;
    AlongSides(a, b);
    RoundCorners(a, b);
    TimesSide(b - a);
    TimesSide(a - b);
    assert Turned(0, Side(s)) == Side(s);
    hide Cross, Turned;
    assert k == 0 || k == 1 || k == 2 || k == 3;
  }

  /** Which quarter the hand is in at t, and how far along its side. */
  function Quarter(t: int): (q: int)
    ensures 0 <= q < 4
  {
    t % DAY / QUARTER
  }

  lemma QuarterAt(t: int, q: int, r: int, days: int)
    requires 0 <= q < 4 && 0 <= r < QUARTER && t == q * QUARTER + r + days * DAY
    ensures Quarter(t) == q && t % QUARTER == r
  {
    ModShift(q * QUARTER + r, days);
    assert t == (q + 4 * days) * QUARTER + r;
    Remainder(t, q + 4 * days, r);
    Remainder(q * QUARTER + r, q, r);
  }

  lemma Remainder(t: int, n: int, r: int)
    requires t == n * QUARTER + r && 0 <= r < QUARTER
    ensures t % QUARTER == r && t / QUARTER == n
  {
  }

  lemma InQuarter(t: int) returns (days: int)
    ensures t == Quarter(t) * QUARTER + t % QUARTER + days * DAY
  {
    days := t / DAY;
    var x := t % DAY;
    assert t == x + days * DAY && x == x / QUARTER * QUARTER + x % QUARTER;
    QuarterAt(t, x / QUARTER, x % QUARTER, days);
  }

  lemma QuartersApart(a: int, b: int)
    ensures var way := (Quarter(b) - Quarter(a)) % 4 * QUARTER + b % QUARTER - a % QUARTER;
            Forward(a, b) == if way < 0 then way + DAY else way
  {
    hide Quarter;
    var n := InQuarter(a);
    var m := InQuarter(b);
    var k := (Quarter(b) - Quarter(a)) % 4;
    var turns := if Quarter(b) >= Quarter(a) then 0 else 1;
    var way := k * QUARTER + b % QUARTER - a % QUARTER;
    assert b - a == way + (m - n - turns) * DAY;
    ModShift(way, m - n - turns);
  }

  lemma HandIsDial()
    ensures IsDial(Hand)
  {
    forall a, b ensures Turns(Hand, a, b) {
      hide Cross, Side, Turned, Quarter, Forward;
      CrossTurned(Quarter(a), Quarter(b), Side(a % QUARTER), Side(b % QUARTER));
      SideTurns(a % QUARTER, b % QUARTER, (Quarter(b) - Quarter(a)) % 4);
      QuartersApart(a, b);
    }
  }

  // ------------------------------------------------------ a second for every sum

  lemma Opposite(t: int)
    ensures Hand(t + DAY / 2) == Vec(-Hand(t).x, -Hand(t).y)
    ensures forall n: int :: Hand(t + n * DAY) == Hand(t)
  {
    hide Quarter;
    var days := InQuarter(t);
    var q, r := Quarter(t), t % QUARTER;
    if q < 2 {
      QuarterAt(t + DAY / 2, q + 2, r, days);
    } else {
      QuarterAt(t + DAY / 2, q - 2, r, days + 1);
    }
    forall n: int ensures Hand(t + n * DAY) == Hand(t) {
      QuarterAt(t + n * DAY, q, r, days + n);
    }
  }

  lemma CrossNegated(u: Vec, v: Vec)
    ensures Cross(Vec(-u.x, -u.y), v) == -Cross(u, v)
  {
  }

  /** Some second has v ahead of it, and not all of the dial is parallel to v. */
  lemma SomeAhead(v: Vec) returns (t: int)
    requires v != Vec(0.0, 0.0)
    ensures Cross(Hand(t), v) > 0.0
  {
    assert Hand(0) == Vec(SIDE, 0.0) && Hand(QUARTER) == Vec(0.0, SIDE);
    assert Cross(Hand(0), v) == SIDE * v.y && Cross(Hand(QUARTER), v) == SIDE * -v.x;
    TimesSide(v.y);
    TimesSide(-v.x);
    t := if v.y != 0.0 then 0 else QUARTER;
    if Cross(Hand(t), v) < 0.0 {
      Opposite(t);
      CrossNegated(Hand(t), v);
      t := t + DAY / 2;
    }
  }

  /** Within half a turn from there, v is passed. */
  lemma SecondOf(v: Vec) returns (m: int)
    requires v != Vec(0.0, 0.0)
    ensures 0 <= m < DAY && PointsAt(Hand, v, m)
  {
    hide Hand, Cross;
    var t := SomeAhead(v);
    Opposite(t);
    CrossNegated(Hand(t), v);
    m := t;
    while Cross(Hand(m + 1), v) >= 0.0
      invariant t <= m < t + DAY / 2 && Cross(Hand(m), v) >= 0.0
      decreases t + DAY / 2 - m
    {
      m := m + 1;
    }
    CrossSwaps(v, Hand(m + 1));
    Opposite(m);
    Opposite(m + 1);
    var n := -(m / DAY);
    assert m % DAY == m + n * DAY && m % DAY + 1 == m + 1 + n * DAY;
    m := m % DAY;
  }

  ghost function MeanSecond(ts: seq<int>): int {
    if exists m :: 0 <= m < DAY && PointsAt(Hand, SumOf(Hand, ts), m) then
      var m :| 0 <= m < DAY && PointsAt(Hand, SumOf(Hand, ts), m); m
    else 0
  }

  /** What is assumed of circular means can be met. */
  lemma CircularMeansExist()
    ensures exists mean :: IsCircularMean(mean)
  {
    hide Hand;
    HandIsDial();
    var mean := (ts: seq<int>) => MeanSecond(ts);
    forall ts: seq<int> | ts != [] && SumOf(Hand, ts) != Vec(0.0, 0.0)
      ensures 0 <= mean(ts) < DAY && PointsAt(Hand, SumOf(Hand, ts), mean(ts))
    {
      var m := SecondOf(SumOf(Hand, ts));
    }
    assert IsMeanFor(Hand, mean);
    assert IsCircularMean(mean);
  }
}
