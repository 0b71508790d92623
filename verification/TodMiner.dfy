/** `mine_time_of_day` (src/pae/miner/tod.py): manual actions grouped by habit, clustered
    on the circle and gated; and why the patterns of one night keep apart. */
module TodMiner {
  import opened Prelude
  import opened Circle
  import opened CircularMean
  import opened Sorting
  import opened Bucketing
  import opened Clusters
  import M = PairMiner
  import P = PatternKeys
  import Components

  // --------------------------------------------------------------- the data

  datatype Config = Config(
    minSupport: real, minOccurrences: nat, tolerance: int, gap: int, scheduleStd: real, sunStd: real, sunMinSpan: int)

  /** The calendar and the statistics the miner calls: the local second of the day, date
      and day type of an instant, the observed days per day type, the circular mean (the
      second it falls in) and the tenth of a minute it is rounded to, the circular deviation
      and the plain one of offsets from the sun, and (sunrise, sunset) of a date, if
      coordinates are configured and the sun rises and sets. */
  datatype Env = Env(
    second: int -> int, date: int -> int, dayType: int -> string, daysObserved: map<string, nat>,
    mean: seq<int> -> int, rounded: seq<int> -> int, std: seq<int> -> real, spread: seq<int> -> real,
    sun: Option<int -> Option<(int, int)>>)

  /** round(mean, 1): a whole tenth, at most half a tenth away; ties go either way. */
  ghost predicate Rounds(env: Env) {
    forall ts :: env.rounded(ts) % TENTH == 0 && Abs(env.rounded(ts) - env.mean(ts)) <= TENTH / 2
  }

  ghost predicate ClockReads(env: Env) {
    forall t :: 0 <= env.second(t) < DAY
  }

  predicate Mineable(e: M.Event) { M.Consequent(e) && M.IsTransition(e) }

  function HabitKey(env: Env): M.Event -> P.Habit {
    (e: M.Event) => P.Habit(e.entity, if e.newState.Some? then e.newState.value else "", Some(env.dayType(e.time)))
  }

  /** The events of one habit, in input order. */
  function EventsOf(events: seq<M.Event>, env: Env, h: P.Habit): seq<M.Event> {
    Having(Filter(Mineable, events), HabitKey(env), h)
  }

  function TotalDays(env: Env, h: P.Habit): nat {
    if h.dayType.Some? && h.dayType.value in env.daysObserved then env.daysObserved[h.dayType.value] else 0
  }

  function Seconds(evs: seq<M.Event>, env: Env): (s: seq<int>)
    ensures |s| == |evs|
  {
    seq(|evs|, i requires 0 <= i < |evs| => env.second(evs[i].time))
  }

  function Dates(evs: seq<M.Event>, env: Env): set<int> {
    set i | 0 <= i < |evs| :: env.date(evs[i].time)
  }

  predicate NoUser(evs: seq<M.Event>) {
    forall i :: 0 <= i < |evs| ==> evs[i].userId.None?
  }

  function Within(mins: seq<int>, mean: int, tolerance: int): nat {
    |Filter((m: int) => Dist(m, mean) <= tolerance, mins)|
  }

  predicate AllKnown(suns: seq<Option<(int, int)>>) {
    forall i :: 0 <= i < |suns| ==> suns[i].Some?
  }

  /** Offsets of the clock times from that date's sunrise, or sunset. */
  function SunOffsets(mins: seq<int>, suns: seq<Option<(int, int)>>, sunset: bool): (offsets: seq<int>)
    requires |mins| == |suns| && AllKnown(suns)
    ensures |offsets| == |mins|
  {
    seq(|mins|, i requires 0 <= i < |mins| =>
      CircularDiff(mins[i], if sunset then suns[i].value.1 else suns[i].value.0))
  }

  function SunTimes(evs: seq<M.Event>, env: Env, sun: int -> Option<(int, int)>): (suns: seq<Option<(int, int)>>)
    ensures |suns| == |evs|
  {
    seq(|evs|, i requires 0 <= i < |evs| => sun(env.date(evs[i].time)))
  }

  /** Two of the events are at least this many days apart. */
  predicate SpansDays(evs: seq<M.Event>, env: Env, days: int) {
    exists i, j :: 0 <= i < |evs| && 0 <= j < |evs| && env.date(evs[i].time) - env.date(evs[j].time) >= days
  }

  /** Over a long enough window, an event of the sun explains the cluster better than the
      clock, whose deviation is std. */
  predicate SunTracked(evs: seq<M.Event>, mins: seq<int>, std: real, env: Env, cfg: Config)
    requires |evs| == |mins|
  {
    if env.sun.None? || !SpansDays(evs, env, cfg.sunMinSpan) then false
    else
      var suns := SunTimes(evs, env, env.sun.value);
      AllKnown(suns) && (Follows(env.spread(SunOffsets(mins, suns, false)), std, cfg)
                         || Follows(env.spread(SunOffsets(mins, suns, true)), std, cfg))
  }

  predicate Follows(spread: real, std: real, cfg: Config) { spread <= cfg.sunStd && spread < std }

  /** What one cluster of a habit's events becomes, if it passes the gates. */
  function CandidateOf(h: P.Habit, evs: seq<M.Event>, cluster: seq<nat>, env: Env, cfg: Config): Option<P.Candidate>
    requires Below(cluster, |evs|) && cluster != [] && TotalDays(env, h) > 0 && cfg.tolerance > 0
  {
    var cevs, cmins := Pick(evs, cluster), Pick(Seconds(evs, env), cluster);
    var support := |Dates(cevs, env)| as real / TotalDays(env, h) as real;
    if |cevs| < cfg.minOccurrences || support < cfg.minSupport then None
    else
      var mean, std := env.mean(cmins), env.std(cmins);
      var consistency := Within(cmins, mean, cfg.tolerance) as real / |cmins| as real;
      var lift := consistency / ((2 * cfg.tolerance) as real / DAY as real);
      var suspected := NoUser(cevs) && (std <= cfg.scheduleStd || SunTracked(cevs, cmins, std, env, cfg));
      var times := Sort(M.TimesOf(cevs), M.Ascending());
      SortKeepsLength(M.TimesOf(cevs));
      Some(P.Candidate(true, P.TodKey(h.entity, h.action, h.dayType, mean / HALF_HOUR), h, Some(env.rounded(cmins)),
          |cevs|,
                       P.Metrics(support, support, lift, Some(consistency), Some(std), TotalDays(env, h), suspected),
                       times[0], times[|times| - 1]))
  }

  lemma SortKeepsLength(ts: seq<int>)
    ensures |Sort(ts, M.Ascending())| == |ts|
  {
    SortIsPermutation(ts, M.Ascending());
  }

  // ------------------------------------------------------------- specification

  /** The clusters of one habit: components of its events' clock times. */
  ghost predicate HabitClusters(evs: seq<M.Event>, env: Env, cfg: Config, clusters: seq<seq<nat>>) {
    && DialComponents(Seconds(evs, env), cfg.gap, clusters)
    && forall k :: 0 <= k < |clusters| ==> Below(clusters[k], |evs|) && clusters[k] != []
  }

  /** out lists the candidates of the clusters numbered ks, all that pass the gates. */
  ghost predicate HabitMined(h: P.Habit, evs: seq<M.Event>, env: Env, cfg: Config, clusters: seq<seq<nat>>, n: nat,
                             ks: seq<nat>, out: seq<P.Candidate>)
    requires HabitClusters(evs, env, cfg, clusters) && TotalDays(env, h) > 0 && cfg.tolerance > 0 && n <= |clusters|
  {
    && |ks| == |out|
    && (forall i, j :: 0 <= i < j < |ks| ==> ks[i] < ks[j])
    && (forall i :: 0 <= i < |ks| ==> ks[i] < n && CandidateOf(h, evs, clusters[ks[i]], env, cfg) == Some(out[i]))
    && (forall k: nat :: k < n && CandidateOf(h, evs, clusters[k], env, cfg).Some? ==> k in ks)
  }

  ghost predicate ListsHabit(h: P.Habit, evs: seq<M.Event>, env: Env, cfg: Config, out: seq<P.Candidate>)
    requires TotalDays(env, h) > 0 && cfg.tolerance > 0
  {
    exists clusters, ks ::
        HabitClusters(evs, env, cfg, clusters) && HabitMined(h, evs, env, cfg, clusters, |clusters|, ks, out)
  }

  method MineHabit(h: P.Habit, evs: seq<M.Event>, env: Env, cfg: Config) returns (out: seq<P.Candidate>)
    requires ClockReads(env) && TotalDays(env, h) > 0 && cfg.tolerance > 0
    ensures ListsHabit(h, evs, env, cfg, out)
  {
    hide CandidateOf;
    var mins := Seconds(evs, env);
    var clusters := ClusterMinutes(mins, cfg.gap);
    ClustersIndex(evs, env, cfg, clusters);
    out := [];
    ghost var ks: seq<nat> := [];
    for k := 0 to |clusters|
      invariant HabitMined(h, evs, env, cfg, clusters, k, ks, out)
    {
      var c := CandidateOf(h, evs, clusters[k], env, cfg);
      if c.Some? {
        out := out + [c.value];
        ks := ks + [k];
      }
    }
  }

  lemma ClustersIndex(evs: seq<M.Event>, env: Env, cfg: Config, clusters: seq<seq<nat>>)
    requires DialComponents(Seconds(evs, env), cfg.gap, clusters)
    ensures HabitClusters(evs, env, cfg, clusters)
  {
    forall k | 0 <= k < |clusters| ensures Below(clusters[k], |evs|) && clusters[k] != [] {
      assert Components.Within(clusters[k], Indexes(|evs|));
      forall p | 0 <= p < |clusters[k]| ensures clusters[k][p] < |evs| {
        assert clusters[k][p] in clusters[k];
      }
    }
  }

  /** The clustering found for each habit with observed days. */
  type Found = map<P.Habit, seq<seq<nat>>>

  ghost predicate ClustersFound(events: seq<M.Event>, env: Env, cfg: Config, found: Found) {
    forall h :: h in found ==> TotalDays(env, h) > 0 && HabitClusters(EventsOf(events, env, h), env, cfg, found[h])
  }

  /** Candidate c is what cluster k of habit h becomes. */
  ghost predicate CameFrom(events: seq<M.Event>, env: Env, cfg: Config, found: Found, h: P.Habit, k: nat,
                           c: P.Candidate)
    requires ClustersFound(events, env, cfg, found) && cfg.tolerance > 0
  {
    h in found && k < |found[h]| && CandidateOf(h, EventsOf(events, env, h), found[h][k], env, cfg) == Some(c)
  }

  /** Every cluster that passes the gates yields exactly one candidate. */
  ghost predicate TodMined(events: seq<M.Event>, env: Env, cfg: Config, found: Found, origin: seq<(P.Habit, nat)>,
                           out: seq<P.Candidate>) {
    && cfg.tolerance > 0 && ClustersFound(events, env, cfg, found)
    && |origin| == |out| && Distinct(origin)
    && (forall i :: 0 <= i < |out| ==> CameFrom(events, env, cfg, found, origin[i].0, origin[i].1, out[i]))
    && (forall h, k: nat, c :: CameFrom(events, env, cfg, found, h, k, c) ==> (h, k) in origin)
  }

  function Tagged(h: P.Habit, ks: seq<nat>): (ps: seq<(P.Habit, nat)>)
    ensures |ps| == |ks| && forall i :: 0 <= i < |ps| ==> ps[i] == (h, ks[i])
  {
    seq(|ks|, i requires 0 <= i < |ks| => (h, ks[i]))
  }

  ghost predicate CoversHabits(events: seq<M.Event>, env: Env, names: seq<P.Habit>, n: nat, found: Found)
    requires n <= |names|
  {
    forall h :: h in found <==> h in names[..n] && TotalDays(env, h) > 0
  }

  lemma AddHabit(events: seq<M.Event>, env: Env, cfg: Config, found: Found, origin: seq<(P.Habit, nat)>,
                 out: seq<P.Candidate>,
                 h: P.Habit, clusters: seq<seq<nat>>, ks: seq<nat>, more: seq<P.Candidate>)
    requires TodMined(events, env, cfg, found, origin, out) && h !in found && TotalDays(env, h) > 0
    requires HabitClusters(EventsOf(events, env, h), env, cfg, clusters)
    requires HabitMined(h, EventsOf(events, env, h), env, cfg, clusters, |clusters|, ks, more)
    ensures TodMined(events, env, cfg, found[h := clusters], origin + Tagged(h, ks), out + more)
  {
    hide HabitClusters, EventsOf, CandidateOf;
    var found', origin', out' := found[h := clusters], origin + Tagged(h, ks), out + more;
    forall i, j | 0 <= i < j < |origin'| ensures origin'[i] != origin'[j] {
      if i < |origin| <= j {
        assert CameFrom(events, env, cfg, found, origin[i].0, origin[i].1, out[i]);
      }
    }
    forall i | 0 <= i < |out'| ensures CameFrom(events, env, cfg, found', origin'[i].0, origin'[i].1, out'[i]) {
      if i < |out| {
        assert CameFrom(events, env, cfg, found, origin[i].0, origin[i].1, out[i]);
      }
    }
    forall g, k: nat, c | CameFrom(events, env, cfg, found', g, k, c) ensures (g, k) in origin' {
      if g == h {
        var i :| 0 <= i < |ks| && ks[i] == k;
        assert origin'[|origin| + i] == (g, k);
      } else {
        assert CameFrom(events, env, cfg, found, g, k, c);
      }
    }
  }

  ghost predicate HabitsFound(events: seq<M.Event>, env: Env, found: Found) {
    forall h :: h in found <==> TotalDays(env, h) > 0 && exists e :: e in events && Mineable(e) && HabitKey(env)(e) == h
  }

  /** The candidates of every cluster of every habit with observed days. */
  ghost predicate MinedFrom(events: seq<M.Event>, env: Env, cfg: Config, out: seq<P.Candidate>) {
    exists found, origin :: HabitsFound(events, env, found) && TodMined(events, env, cfg, found, origin, out)
  }

  method MineTimeOfDay(events: seq<M.Event>, env: Env, cfg: Config) returns (out: seq<P.Candidate>)
    requires ClockReads(env) && cfg.tolerance > 0
    ensures MinedFrom(events, env, cfg, out)
  {
    hide TodMined, HabitMined, HabitClusters, Having, HabitKey, HabitsFound;
    var names, groups := BucketBy(Filter(Mineable, events), HabitKey(env));
    out := [];
    ghost var found: Found, origin: seq<(P.Habit, nat)> := map[], [];
    NothingMined(events, env, cfg);
    for i := 0 to |names|
      invariant TodMined(events, env, cfg, found, origin, out)
      invariant CoversHabits(events, env, names, i, found)
    {
      var h := names[i];
      assert names[..i + 1] == names[..i] + [h] && h !in names[..i];
      if TotalDays(env, h) > 0 {
        var more := MineHabit(h, groups[h], env, cfg);
        ghost var clusters, ks :| HabitClusters(groups[h], env, cfg, clusters)
                                  && HabitMined(h, groups[h], env, cfg, clusters, |clusters|, ks, more);
        AddHabit(events, env, cfg, found, origin, out, h, clusters, ks, more);
        out, found, origin := out + more, found[h := clusters], origin + Tagged(h, ks);
      }
    }
    assert names[..|names|] == names;
    HabitsListed(events, env, names, groups, found);
  }

  lemma NothingMined(events: seq<M.Event>, env: Env, cfg: Config)
    requires cfg.tolerance > 0
    ensures TodMined(events, env, cfg, map[], [], [])
  {
  }

  lemma HabitsListed(events: seq<M.Event>, env: Env, names: seq<P.Habit>, groups: map<P.Habit, seq<M.Event>>,
                     found: Found)
    requires Buckets(Filter(Mineable, events), HabitKey(env), names, groups)
    requires forall h :: h in found <==> h in names && TotalDays(env, h) > 0
    ensures HabitsFound(events, env, found)
  {
    forall h ensures h in names <==> exists e :: e in events && Mineable(e) && HabitKey(env)(e) == h {
      if h in names {
        var e := groups[h][0];
        HavingMembers(Filter(Mineable, events), HabitKey(env), h, e);
        FilterMembers(Mineable, events, e);
      }
      if e :| e in events && Mineable(e) && HabitKey(env)(e) == h {
        FilterMembers(Mineable, events, e);
      }
    }
  }

  // ------------------------------------------------------ what a candidate says

  /** A candidate spells out its habit and passed the gates. */
  lemma CandidateIsSound(h: P.Habit, evs: seq<M.Event>, cluster: seq<nat>, env: Env, cfg: Config)
    requires Below(cluster, |evs|) && cluster != [] && TotalDays(env, h) > 0 && cfg.tolerance > 0
    requires CandidateOf(h, evs, cluster, env, cfg).Some?
    ensures var c := CandidateOf(h, evs, cluster, env, cfg).value;
            && c.isTod && c.habit == h && P.KeyFits(c.key, true, h)
            && c.tod == Some(env.rounded(Pick(Seconds(evs, env), cluster)))
            && c.key.bucket == env.mean(Pick(Seconds(evs, env), cluster)) / HALF_HOUR
            && c.occurrences == |cluster| >= cfg.minOccurrences && cfg.minSupport <= c.metrics.support
  {
  }

  /** Supports are ratios of days and consistencies ratios of occurrences. */
  lemma CandidateRatios(h: P.Habit, evs: seq<M.Event>, cluster: seq<nat>, env: Env, cfg: Config)
    requires Below(cluster, |evs|) && cluster != [] && TotalDays(env, h) > 0 && cfg.tolerance > 0
    requires CandidateOf(h, evs, cluster, env, cfg).Some?
    ensures var c := CandidateOf(h, evs, cluster, env, cfg).value;
            && (|Dates(evs, env)| <= TotalDays(env, h) ==> 0.0 < c.metrics.support <= 1.0)
            && c.metrics.consistency.Some? && 0.0 <= c.metrics.consistency.value <= 1.0
            && c.firstSeen <= c.lastSeen
  {
    hide Dates, Within, NoUser, Pick;
    var cevs, cmins := Pick(evs, cluster), Pick(Seconds(evs, env), cluster);
    SomeAreWithin(cmins, env.mean(cmins), cfg.tolerance);
    M.RatioAtMostOne(Within(cmins, env.mean(cmins), cfg.tolerance), |cmins|);
    SupportIsRatio(evs, cluster, env, TotalDays(env, h));
    M.FirstBeforeLast(M.TimesOf(cevs));
  }

  lemma SupportIsRatio(evs: seq<M.Event>, cluster: seq<nat>, env: Env, total: nat)
    requires Below(cluster, |evs|) && cluster != [] && total > 0
    ensures |Dates(evs, env)| <= total ==> 0.0 < |Dates(Pick(evs, cluster), env)| as real / total as real <= 1.0
  {
    var cevs := Pick(evs, cluster);
    assert env.date(cevs[0].time) in Dates(cevs, env);
    SubsetSize(Dates(cevs, env), Dates(evs, env));
    if |Dates(cevs, env)| <= total {
      M.RatioAtMostOne(|Dates(cevs, env)|, total);
    }
  }

  lemma SomeAreWithin(mins: seq<int>, mean: int, tolerance: int)
    ensures Within(mins, mean, tolerance) <= |mins|
  {
    FilterAtMost((m: int) => Dist(m, mean) <= tolerance, mins);
  }

  // --------------------------------------------------- why one night's keep apart

  /** The miner's mean is the circular mean, and every cluster spans less than half a day. */
  ghost predicate ShortClusters(events: seq<M.Event>, env: Env, cfg: Config, found: Found)
    requires ClustersFound(events, env, cfg, found)
  {
    && IsCircularMean(env.mean)
    && forall h, k: nat :: h in found && k < |found[h]| ==> Short(events, env, h, found[h][k])
  }

  ghost predicate Short(events: seq<M.Event>, env: Env, h: P.Habit, cluster: seq<nat>) {
    var mins := Seconds(EventsOf(events, env, h), env);
    Below(cluster, |mins|) ==> 2 * Sweep(mins, cluster) < DAY
  }

  /** The second the mean of cluster k falls in. */
  ghost function MeanOf(events: seq<M.Event>, env: Env, cfg: Config, found: Found, h: P.Habit, k: nat): int
    requires ClustersFound(events, env, cfg, found) && h in found && k < |found[h]|
  {
    env.mean(Pick(Seconds(EventsOf(events, env, h), env), found[h][k]))
  }

  lemma MeansFarApart(events: seq<M.Event>, env: Env, cfg: Config, found: Found, h: P.Habit, k: nat, k': nat)
    requires ClustersFound(events, env, cfg, found) && ShortClusters(events, env, cfg, found)
    requires h in found && k < |found[h]| && k' < |found[h]| && k != k'
    ensures Dist(MeanOf(events, env, cfg, found, h, k), MeanOf(events, env, cfg, found, h, k')) > cfg.gap
  {
    hide OnArc, Dist, EventsOf, Seconds, IsCircularMean, Sweep;
    assert Short(events, env, h, found[h][k]) && Short(events, env, h, found[h][k']);
    MeanOnOwnArc(Seconds(EventsOf(events, env, h), env), found[h][k], env.mean);
    MeanOnOwnArc(Seconds(EventsOf(events, env, h), env), found[h][k'], env.mean);
    ClustersStayApart(Seconds(EventsOf(events, env, h), env), cfg.gap, found[h], k, k',
                      MeanOf(events, env, cfg, found, h, k), MeanOf(events, env, cfg, found, h, k'));
  }

  lemma CandidateHabit(events: seq<M.Event>, env: Env, cfg: Config, found: Found, h: P.Habit, k: nat, c: P.Candidate)
    requires cfg.tolerance > 0 && ClustersFound(events, env, cfg, found) && CameFrom(events, env, cfg, found, h, k, c)
    ensures c.isTod && c.habit == h && c.tod.Some? && P.KeyFits(c.key, true, h)
    ensures c.key.bucket == MeanOf(events, env, cfg, found, h, k) / HALF_HOUR
    ensures Rounds(env) ==>
              c.tod.value % TENTH == 0 && Abs(c.tod.value - MeanOf(events, env, cfg, found, h, k)) <= TENTH / 2
  {
    hide CandidateOf, EventsOf;
    CandidateIsSound(h, EventsOf(events, env, h), found[h][k], env, cfg);
  }

  /** Two candidates of one habit come from different clusters, whose means are far apart. */
  lemma OriginsDiffer(events: seq<M.Event>, env: Env, cfg: Config, found: Found, origin: seq<(P.Habit, nat)>,
                      out: seq<P.Candidate>, i: nat, j: nat) returns (h: P.Habit, k: nat, l: nat)
    requires TodMined(events, env, cfg, found, origin, out) && ShortClusters(events, env, cfg, found)
    requires i < j < |out| && out[i].habit == out[j].habit
    ensures CameFrom(events, env, cfg, found, h, k, out[i]) && CameFrom(events, env, cfg, found, h, l, out[j])
    ensures Dist(MeanOf(events, env, cfg, found, h, k), MeanOf(events, env, cfg, found, h, l)) > cfg.gap
  {
    hide CandidateOf, EventsOf, Dist, ShortClusters, ClustersFound, MeanOf;
    h, k, l := origin[i].0, origin[i].1, origin[j].1;
    assert CameFrom(events, env, cfg, found, origin[i].0, origin[i].1, out[i]);
    assert CameFrom(events, env, cfg, found, origin[j].0, origin[j].1, out[j]);
    CandidateHabit(events, env, cfg, found, h, k, out[i]);
    CandidateHabit(events, env, cfg, found, origin[j].0, l, out[j]);
    assert origin[i] != origin[j];
    MeansFarApart(events, env, cfg, found, h, k, l);
  }

  /** No mean fell in a second half way between two tenths of a minute. */
  ghost predicate Untied(events: seq<M.Event>, env: Env, cfg: Config, found: Found)
    requires ClustersFound(events, env, cfg, found)
  {
    forall h, k: nat :: h in found && k < |found[h]| ==> MeanOf(events, env, cfg, found, h, k) % TENTH != TENTH / 2
  }

  /** Stored clock times of one habit's candidates differ by at least the cluster gap,
      rounded down to a tenth of a minute. */
  lemma MinedAreSeparated(events: seq<M.Event>, env: Env, cfg: Config, found: Found, origin: seq<(P.Habit, nat)>,
                          out: seq<P.Candidate>, i: nat, j: nat, ties: bool)
    requires TodMined(events, env, cfg, found, origin, out) && ShortClusters(events, env, cfg, found) && Rounds(env)
    requires i < j < |out| && out[i].habit == out[j].habit && (ties || Untied(events, env, cfg, found))
    ensures out[i].tod.Some? && out[j].tod.Some?
    ensures Dist(out[i].tod.value, out[j].tod.value) >= Reliable(cfg.gap, ties)
    ensures 2 * cfg.gap < DAY
  {
    hide CandidateOf, EventsOf, Dist, ShortClusters, ClustersFound, MeanOf, Rounds, TodMined, Untied, Reliable;
    ToleranceIsPositive(events, env, cfg, found, origin, out);
    var h, k, l := OriginsDiffer(events, env, cfg, found, origin, out, i, j);
    RoundedMean(events, env, cfg, found, h, k, out[i], ties);
    RoundedMean(events, env, cfg, found, h, l, out[j], ties);
    var m, w := MeanOf(events, env, cfg, found, h, k), MeanOf(events, env, cfg, found, h, l);
    RoundedFarApart(m, w, out[i].tod.value, out[j].tod.value, cfg.gap, ties);
    DistAtMostHalf(m, w);
  }

  lemma ToleranceIsPositive(events: seq<M.Event>, env: Env, cfg: Config, found: Found, origin: seq<(P.Habit, nat)>,
                            out: seq<P.Candidate>)
    requires TodMined(events, env, cfg, found, origin, out)
    ensures cfg.tolerance > 0 && ClustersFound(events, env, cfg, found)
  {
  }

  /** How far rounding moves a candidate's clock time. */
  lemma RoundedMean(events: seq<M.Event>, env: Env, cfg: Config, found: Found, h: P.Habit, k: nat, c: P.Candidate,
                    ties: bool)
    requires cfg.tolerance > 0 && ClustersFound(events, env, cfg, found) && CameFrom(events, env, cfg, found, h, k, c)
    requires Rounds(env) && (ties || Untied(events, env, cfg, found))
    ensures var m := MeanOf(events, env, cfg, found, h, k);
            && c.tod.Some? && c.tod.value % TENTH == 0 && Abs(c.tod.value - m) <= TENTH / 2
            && (ties || Abs(c.tod.value - m) < TENTH / 2)
  {
    hide CandidateOf, EventsOf, HabitClusters, MeanOf;
    CandidateHabit(events, env, cfg, found, h, k, c);
    if !ties {
      HalfTenth(c.tod.value, MeanOf(events, env, cfg, found, h, k));
    }
  }

  lemma HalfTenth(a: int, m: int)
    requires a % TENTH == 0 && m % TENTH != TENTH / 2
    ensures Abs(a - m) != TENTH / 2
  {
  }

  lemma TodsFit(events: seq<M.Event>, env: Env, cfg: Config, found: Found, origin: seq<(P.Habit, nat)>,
                out: seq<P.Candidate>)
    requires TodMined(events, env, cfg, found, origin, out)
    ensures P.TodCandidates(out)
  {
    hide CandidateOf, EventsOf, ClustersFound, MeanOf, Rounds;
    forall i | 0 <= i < |out| ensures out[i].isTod && out[i].tod.Some? && P.KeyFits(out[i].key, true, out[i].habit) {
      CandidateHabit(events, env, cfg, found, origin[i].0, origin[i].1, out[i]);
    }
  }

  /** What is reliably left of the gap exceeds twice the tolerance; or the gap is so wide
      that a habit has one cluster only. */
  predicate GapSuffices(gap: int, tolerance: int, ties: bool) {
    2 * gap >= DAY || Reliable(gap, ties) > 2 * tolerance
  }

  /** What mining delivers to key reconciliation: keys that fit their habits; from a gap of a
      tenth of a minute on, clock times that differ; separated ones if the gap suffices. */
  lemma MinedReconcileCleanly(events: seq<M.Event>, env: Env, cfg: Config, found: Found, origin: seq<(P.Habit, nat)>,
                              out: seq<P.Candidate>, ties: bool)
    requires TodMined(events, env, cfg, found, origin, out) && ShortClusters(events, env, cfg, found) && Rounds(env)
    requires ties || Untied(events, env, cfg, found)
    ensures P.TodCandidates(out)
    ensures cfg.gap >= TENTH ==> P.TimesDiffer(out)
    ensures GapSuffices(cfg.gap, cfg.tolerance, ties) ==> P.WellSeparated(out, cfg.tolerance)
  {
    hide CandidateOf, EventsOf, Dist, ShortClusters, ClustersFound, Rounds, Untied;
    forall i: nat, j: nat | i < j < |out| && out[i].habit == out[j].habit
      ensures out[i].tod.Some? && out[j].tod.Some?
      ensures Dist(out[i].tod.value, out[j].tod.value) >= Reliable(cfg.gap, ties) && 2 * cfg.gap < DAY
    {
      MinedAreSeparated(events, env, cfg, found, origin, out, i, j, ties);
    }
    TodsFit(events, env, cfg, found, origin, out);
  }

  /** With the gap at least half an hour, no two fresh keys of a night collide. */
  lemma MinedKeysDistinct(events: seq<M.Event>, env: Env, cfg: Config, found: Found, origin: seq<(P.Habit, nat)>,
                          out: seq<P.Candidate>, i: nat, j: nat)
    requires TodMined(events, env, cfg, found, origin, out) && ShortClusters(events, env, cfg, found)
    requires cfg.gap >= HALF_HOUR - 1 && i < j < |out|
    ensures out[i].key != out[j].key
  {
    hide CandidateOf, EventsOf, ShortClusters, ClustersFound, MeanOf, Rounds, Dist;
    CandidateHabit(events, env, cfg, found, origin[i].0, origin[i].1, out[i]);
    CandidateHabit(events, env, cfg, found, origin[j].0, origin[j].1, out[j]);
    if out[i].habit == out[j].habit {
      var h, k, l := OriginsDiffer(events, env, cfg, found, origin, out, i, j);
      CandidateHabit(events, env, cfg, found, h, k, out[i]);
      CandidateHabit(events, env, cfg, found, h, l, out[j]);
      SameBucketIsClose(MeanOf(events, env, cfg, found, h, k), MeanOf(events, env, cfg, found, h, l));
    }
  }

  lemma SameBucketIsClose(a: int, b: int)
    ensures a / HALF_HOUR == b / HALF_HOUR ==> Dist(a, b) < HALF_HOUR
  {
    if a / HALF_HOUR == b / HALF_HOUR {
      DistFromOffset(a, b, 0, HALF_HOUR - 1);
    }
  }
}
