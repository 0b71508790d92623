/** Which miner settings keep one night's clock times apart (src/pae/miner/tod.py,
    src/pae/miner/stats.py): exactly, rounding included, with the failing nights. */
module Separation {
  import opened Prelude
  import opened Circle
  import opened CircularMean
  import opened Bucketing
  import opened Components
  import opened Clusters
  import opened TodMiner
  import M = PairMiner
  import P = PatternKeys

  // ------------------------------------------------------- the exact condition

  /** A night mined with these settings and this mean; without `ties`, one on which no mean
      fell half way between two tenths. */
  ghost predicate Mined(events: seq<M.Event>, env: Env, cfg: Config, found: Found, origin: seq<(P.Habit, nat)>,
                        out: seq<P.Candidate>, mean: seq<int> -> int, gap: int, tolerance: int, ties: bool) {
    && cfg.gap == gap && cfg.tolerance == tolerance && env.mean == mean && ClockReads(env) && Rounds(env)
    && TodMined(events, env, cfg, found, origin, out) && ShortClusters(events, env, cfg, found)
    && (ties || Untied(events, env, cfg, found))
  }

  /** Whatever happened in the house, the stored clock times of one habit are more than
      twice the tolerance apart. */
  ghost predicate AlwaysSeparated(mean: seq<int> -> int, gap: int, tolerance: int, ties: bool) {
    forall events: seq<M.Event>, env: Env, cfg: Config, found: Found, origin: seq<(P.Habit, nat)>,
        out: seq<P.Candidate> ::
      Mined(events, env, cfg, found, origin, out, mean, gap, tolerance, ties) ==> P.WellSeparated(out, tolerance)
  }

  /** Stored clock times are reliably apart iff the gap, rounded down to a tenth of a
      minute, exceeds twice the tolerance; on nights without ties, iff the gap rounded up
      from four seconds past a tenth does. Exactly twice is never enough. */
  lemma SeparationIff(mean: seq<int> -> int, gap: int, tolerance: int, ties: bool)
    requires IsCircularMean(mean) && tolerance > 0
    ensures AlwaysSeparated(mean, gap, tolerance, ties) <==> GapSuffices(gap, tolerance, ties)
  {
    hide TodMined, ShortClusters, Rounds, ClockReads, Untied, P.WellSeparated, GapSuffices, IsCircularMean;
    if GapSuffices(gap, tolerance, ties) {
      forall events: seq<M.Event>, env: Env, cfg: Config, found: Found, origin: seq<(P.Habit, nat)>,
          out: seq<P.Candidate>
        | Mined(events, env, cfg, found, origin, out, mean, gap, tolerance, ties)
        ensures P.WellSeparated(out, tolerance)
      {
        MinedReconcileCleanly(events, env, cfg, found, origin, out, ties);
      }
    } else {
      var out := RoundingBringsClose(mean, gap, tolerance, ties);
    }
  }

  // --------------------------------------------------------- the failing night

  /** Gaps four or five seconds past a tenth fail on exact ties only: a first mean half a
      tenth past midnight and, at five seconds, a second one on a tie too. */
  function EarlyAt(gap: int, ties: bool): nat { if ties && gap % TENTH >= 4 then 3 else 4 }

  /** What is left of a positive gap. */
  function Least(gap: int, ties: bool): nat { if gap < 0 then 0 else Reliable(gap, ties) }

  function LateAt(gap: int, ties: bool): nat {
    Least(gap, ties) + if !ties && gap % TENTH >= 4 then 4 else if gap % TENTH < 5 then 8 else 9
  }

  lemma LeastIsTenths(gap: int, ties: bool)
    requires 2 * gap < DAY
    ensures Least(gap, ties) % TENTH == 0 && 2 * Least(gap, ties) <= DAY
    ensures LateAt(gap, ties) - EarlyAt(gap, ties) > gap
    ensures 4 <= LateAt(gap, ties) - Least(gap, ties) <= 9 && (!ties ==> LateAt(gap, ties) - Least(gap, ties) < 9)
    ensures 0 <= LateAt(gap, ties) - EarlyAt(gap, ties) && 2 * (LateAt(gap, ties) - EarlyAt(gap, ties)) <= DAY
  {
  }

  lemma NearestAfter(base: int, m: int)
    requires base >= 0 && base % TENTH == 0 && base + 4 <= m <= base + 9
    ensures Nearest(m) == base + TENTH && (m < base + 9 ==> m % TENTH != TENTH / 2)
  {
  }

  lemma DistAhead(a: int, b: int)
    requires 0 <= b - a && 2 * (b - a) <= DAY
    ensures Dist(a, b) == b - a
  {
  }

  lemma FailingTimes(gap: int, ties: bool)
    requires 2 * gap < DAY
    ensures var a, b := EarlyAt(gap, ties), LateAt(gap, ties);
            && a <= b < DAY && Dist(a, b) > gap
            && Nearest(a) == TENTH && Nearest(b) == TENTH + Least(gap, ties)
            && Dist(Nearest(a), Nearest(b)) == Least(gap, ties)
            && (!ties ==> a % TENTH != TENTH / 2 && b % TENTH != TENTH / 2)
  {
    hide Dist, LateAt, Least;
    LeastIsTenths(gap, ties);
    NearestAfter(Least(gap, ties), LateAt(gap, ties));
    DistAhead(EarlyAt(gap, ties), LateAt(gap, ties));
    DistAhead(TENTH, TENTH + Least(gap, ties));
  }

  function LampAt(second: int): M.Event {
    M.Event(second, "light.lamp", "light", None, Some("on"), "manual", None)
  }

  /** One lamp, at two seconds of one day. */
  function TwoLamps(a: nat, b: nat): seq<M.Event> { [LampAt(a), LampAt(b)] }

  /** The nearest tenth; of ties, three seconds goes up and the others go down. */
  function Nearest(m: int): int {
    if m == 3 then TENTH else m - m % TENTH + if m % TENTH > TENTH / 2 then TENTH else 0
  }

  function OneDay(mean: seq<int> -> int): Env {
    Env((t: int) => t % DAY, (t: int) => 0, (t: int) => "weekday", map["weekday" := 1],
        mean, (ts: seq<int>) => Nearest(mean(ts)), (ts: seq<int>) => 0.0, (ts: seq<int>) => 0.0, None)
  }

  function Lenient(gap: int, tolerance: int): Config { Config(0.0, 0, tolerance, gap, 0.0, 0.0, 0) }

  const LAMP := P.Habit("light.lamp", "on", Some("weekday"))

  function Apart(): Found { map[LAMP := [[0], [1]]] }

  lemma OneDayRounds(mean: seq<int> -> int)
    ensures ClockReads(OneDay(mean)) && Rounds(OneDay(mean))
  {
    forall ts ensures OneDay(mean).rounded(ts) % TENTH == 0 && Abs(OneDay(mean).rounded(ts) - mean(ts)) <= TENTH / 2 {
      NearestRounds(mean(ts));
    }
  }

  lemma NearestRounds(m: int)
    ensures Nearest(m) % TENTH == 0 && Abs(Nearest(m) - m) <= TENTH / 2
  {
  }

  lemma LampEvents(mean: seq<int> -> int, a: nat, b: nat)
    requires a < DAY && b < DAY
    ensures EventsOf(TwoLamps(a, b), OneDay(mean), LAMP) == TwoLamps(a, b)
    ensures Seconds(TwoLamps(a, b), OneDay(mean)) == [a, b]
  {
    AllPicked(Mineable, TwoLamps(a, b));
    HavingAll(TwoLamps(a, b), HabitKey(OneDay(mean)), LAMP);
  }

  lemma TwoClusters(mean: seq<int> -> int, a: nat, b: nat, gap: int, tolerance: int)
    requires a < DAY && b < DAY && Dist(a, b) > gap
    ensures ClustersFound(TwoLamps(a, b), OneDay(mean), Lenient(gap, tolerance), Apart())
  {
    hide Dist;
    var minutes: seq<int>, near := [a, b], NearOnDial([a, b], gap);
    LampEvents(mean, a, b);
    DistSymmetric(a, b);
    assert Indexes(2) == [0, 1];
    TwoSingletons<nat>(near, 0, 1);
    NearIsSymmetric(minutes, gap);
    StepsGiveComponents<nat>(near, [0, 1], [[0], [1]]);
    assert DialComponents(minutes, gap, [[0], [1]]);
  }

  function Stored(mean: seq<int> -> int, a: nat, b: nat, gap: int, tolerance: int, k: nat): Option<P.Candidate>
    requires k < 2 && tolerance > 0
  {
    CandidateOf(LAMP, TwoLamps(a, b), [k], OneDay(mean), Lenient(gap, tolerance))
  }

  lemma LenientAccepts(h: P.Habit, evs: seq<M.Event>, cluster: seq<nat>, env: Env, cfg: Config)
    requires Below(cluster, |evs|) && cluster != [] && TotalDays(env, h) > 0 && cfg.tolerance > 0
    requires cfg.minSupport <= 0.0 && cfg.minOccurrences == 0
    ensures CandidateOf(h, evs, cluster, env, cfg).Some?
  {
    hide Dates, TodMiner.Within, NoUser, Pick;
    M.Quotient(|Dates(Pick(evs, cluster), env)| as real, TotalDays(env, h) as real);
  }

  lemma LampMean(mean: seq<int> -> int, a: nat, b: nat, k: nat)
    requires IsCircularMean(mean) && a < DAY && b < DAY && k < 2
    ensures mean(Pick(Seconds(TwoLamps(a, b), OneDay(mean)), [k])) == [a, b][k]
  {
    LampEvents(mean, a, b);
    assert Pick(Seconds(TwoLamps(a, b), OneDay(mean)), [k]) == [[a, b][k]];
    MeanOfOne(mean, [a, b][k]);
  }

  lemma LampsPass(mean: seq<int> -> int, a: nat, b: nat, gap: int, tolerance: int, k: nat)
    requires IsCircularMean(mean) && a < DAY && b < DAY && tolerance > 0 && k < 2
    ensures var c := Stored(mean, a, b, gap, tolerance, k);
            c.Some? && c.value.habit == LAMP && c.value.tod == Some(Nearest([a, b][k]))
  {
    hide CandidateOf, Nearest, Seconds, IsCircularMean;
    LampMean(mean, a, b, k);
    LenientAccepts(LAMP, TwoLamps(a, b), [k], OneDay(mean), Lenient(gap, tolerance));
    CandidateIsSound(LAMP, TwoLamps(a, b), [k], OneDay(mean), Lenient(gap, tolerance));
  }

  lemma LampsMined(mean: seq<int> -> int, a: nat, b: nat, gap: int, tolerance: int)
    requires IsCircularMean(mean) && a < DAY && b < DAY && tolerance > 0 && Dist(a, b) > gap
    ensures Stored(mean, a, b, gap, tolerance, 0).Some? && Stored(mean, a, b, gap, tolerance, 1).Some?
    ensures TodMined(TwoLamps(a, b), OneDay(mean), Lenient(gap, tolerance), Apart(), [(LAMP, 0), (LAMP, 1)],
                     [Stored(mean, a, b, gap, tolerance, 0).value, Stored(mean, a, b, gap, tolerance, 1).value])
    ensures ShortClusters(TwoLamps(a, b), OneDay(mean), Lenient(gap, tolerance), Apart())
    ensures a % TENTH != TENTH / 2 && b % TENTH != TENTH / 2 ==>
              Untied(TwoLamps(a, b), OneDay(mean), Lenient(gap, tolerance), Apart())
  {
    hide CandidateOf, Dist, HabitClusters, EventsOf, IsCircularMean;
    var events, env, cfg, found := TwoLamps(a, b), OneDay(mean), Lenient(gap, tolerance), Apart();
    TwoClusters(mean, a, b, gap, tolerance);
    LampEvents(mean, a, b);
    LampsPass(mean, a, b, gap, tolerance, 0);
    LampsPass(mean, a, b, gap, tolerance, 1);
    LampMean(mean, a, b, 0);
    LampMean(mean, a, b, 1);
    var origin := [(LAMP, 0), (LAMP, 1)];
    forall h, k: nat, c | CameFrom(events, env, cfg, found, h, k, c) ensures (h, k) in origin {
      assert h == LAMP && k < 2;
      assert origin[k] == (h, k);
    }
  }

  /** For every insufficient gap: two clusters further apart than the gap, whose stored
      clock times are not more than twice the tolerance apart. */
  lemma RoundingBringsClose(mean: seq<int> -> int, gap: int, tolerance: int, ties: bool)
    returns (out: seq<P.Candidate>)
    requires IsCircularMean(mean) && tolerance > 0 && !GapSuffices(gap, tolerance, ties)
    ensures Mined(TwoLamps(EarlyAt(gap, ties), LateAt(gap, ties)), OneDay(mean), Lenient(gap, tolerance), Apart(),
                  [(LAMP, 0), (LAMP, 1)], out, mean, gap, tolerance, ties)
    ensures !P.WellSeparated(out, tolerance)
  {
    hide TodMined, ShortClusters, Untied, Stored, Dist, Nearest, IsCircularMean;
    var a, b := EarlyAt(gap, ties), LateAt(gap, ties);
    FailingTimes(gap, ties);
    OneDayRounds(mean);
    LampsMined(mean, a, b, gap, tolerance);
    LampsPass(mean, a, b, gap, tolerance, 0);
    LampsPass(mean, a, b, gap, tolerance, 1);
    out := [Stored(mean, a, b, gap, tolerance, 0).value, Stored(mean, a, b, gap, tolerance, 1).value];
    assert Dist(out[0].tod.value, out[1].tod.value) == Least(gap, ties) <= 2 * tolerance;
  }

  /** The configured 90 and 45 minutes fail, and need no tie for it. */
  lemma ConfiguredGapFails(mean: seq<int> -> int)
    requires IsCircularMean(mean)
    ensures !AlwaysSeparated(mean, 90 * 60, 45 * 60, false)
  {
    SeparationIff(mean, 90 * 60, 45 * 60, false);
  }
}
