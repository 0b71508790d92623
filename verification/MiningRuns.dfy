/** run_mining (src/pae/miner/service.py): both miners over one night's events, then
    reconcile, dedupe and upsert. */
module MiningRuns {
  import opened Prelude
  import opened Circle
  import opened Sorting
  import opened Bucketing
  import opened Clusters
  import M = PairMiner
  import R = PairReport
  import P = PatternKeys
  import T = TodMiner

  function StateName(k: M.StateKey): string { if k.state.Some? then k.state.value else "" }

  /** An event pair as a row of the patterns table. */
  function AsPattern(c: M.Candidate): P.Candidate {
    P.Candidate(false, P.PairKey(c.key.a.entity, StateName(c.key.a), c.key.b.entity, StateName(c.key.b)),
                P.Habit(c.key.b.entity, StateName(c.key.b), None), None, c.occurrences,
                P.Metrics(c.support, c.confidence, c.lift, None, None, c.daysObserved, false), c.firstSeen, c.lastSeen)
  }

  function AsPatterns(cs: seq<M.Candidate>): (ps: seq<P.Candidate>)
    ensures |ps| == |cs| && forall i :: 0 <= i < |cs| ==> ps[i] == AsPattern(cs[i])
  {
    seq(|cs|, i requires 0 <= i < |cs| => AsPattern(cs[i]))
  }

  /** What the pair miner returned for these events. */
  ghost predicate PairsMined(events: seq<M.Event>, dateOf: int -> int, cfg: M.Config, pairs: seq<M.Candidate>) {
    if M.Comparable(cfg) then M.Emits(M.Transitions(events), dateOf, cfg, pairs) else pairs == []
  }

  // ------------------------------------------------- what a run counts itself

  function TypeName(weekend: bool): string { if weekend then "weekend" else "weekday" }

  function DaysOn(dates: set<int>, weekend: int -> bool, b: bool): set<int> { set d | d in dates && weekend(d) == b }

  /** How many of the dates fall on each kind of day. */
  function DaysByType(dates: set<int>, weekend: int -> bool): map<string, nat> {
    map["weekday" := |DaysOn(dates, weekend, false)|, "weekend" := |DaysOn(dates, weekend, true)|]
  }

  method CountDays(dates: set<int>, weekend: int -> bool) returns (byType: map<string, nat>)
    ensures byType == DaysByType(dates, weekend)
  {
    byType := map["weekday" := 0, "weekend" := 0];
    hide DaysByType;
    var rest: set<int>, done: set<int> := dates, {};
    NoDays(weekend);
    while rest != {}
      invariant rest !! done && rest + done == dates
      invariant byType == DaysByType(done, weekend)
    {
      ghost var some := Member(rest);
      var d :| d in rest;
      CountOneMore(done, weekend, d);
      var name := TypeName(weekend(d));
      byType := byType[name := byType[name] + 1];
      rest, done := rest - {d}, done + {d};
    }
    assert done == dates;
  }

  lemma Member<T>(xs: set<T>) returns (x: T)
    requires xs != {}
    ensures x in xs
  {
    x :| x in xs;
  }

  lemma CountOneMore(done: set<int>, weekend: int -> bool, d: int)
    requires d !in done
    ensures var was, name := DaysByType(done, weekend), TypeName(weekend(d));
            name in was && DaysByType(done + {d}, weekend) == was[name := was[name] + 1]
  {
    OneMoreDay(done, weekend, d, false);
    OneMoreDay(done, weekend, d, true);
  }

  lemma NoDays(weekend: int -> bool)
    ensures DaysByType({}, weekend) == map["weekday" := 0, "weekend" := 0]
  {
    assert DaysOn({}, weekend, false) == {} && DaysOn({}, weekend, true) == {};
  }

  lemma OneMoreDay(done: set<int>, weekend: int -> bool, d: int, b: bool)
    requires d !in done
    ensures |DaysOn(done + {d}, weekend, b)| == |DaysOn(done, weekend, b)| + if weekend(d) == b then 1 else 0
  {
    var was := DaysOn(done, weekend, b);
    assert DaysOn(done + {d}, weekend, b) == if weekend(d) == b then was + {d} else was;
  }

  /** Minutes from the first event to the last, at least one. */
  function Span(events: seq<M.Event>): (minutes: real)
    requires events != []
    ensures minutes >= 1.0 && minutes * 60000000.0 >= (events[|events| - 1].time - events[0].time) as real
    ensures minutes == 1.0 || minutes * 60000000.0 == (events[|events| - 1].time - events[0].time) as real
  {
    var minutes := (events[|events| - 1].time - events[0].time) as real / 60000000.0;
    if minutes > 1.0 then minutes else 1.0
  }

  /** The calendar with the day types and observed days the run hands to the miner. */
  function Counted(env: T.Env, weekend: int -> bool, byType: map<string, nat>): T.Env {
    env.(dayType := (t: int) => TypeName(weekend(env.date(t))), daysObserved := byType)
  }

  function Spanned(cfg: M.Config, events: seq<M.Event>, days: nat): M.Config
    requires events != []
  {
    cfg.(daysObservedTotal := days, spanMinutes := Span(events))
  }

  /** The calendar and pair settings of a night with these events. */
  function NightEnv(events: seq<M.Event>, env: T.Env, weekend: int -> bool): T.Env {
    Counted(env, weekend, DaysByType(T.Dates(events, env), weekend))
  }

  function NightPairs(events: seq<M.Event>, env: T.Env, pairCfg: M.Config): M.Config
    requires events != []
  {
    Spanned(pairCfg, events, |T.Dates(events, env)|)
  }

  /** What both miners returned on one night. */
  ghost predicate BothMined(events: seq<M.Event>, env: T.Env, weekend: int -> bool, cfg: T.Config, pairCfg: M.Config,
                            tods: seq<P.Candidate>, pairs: seq<M.Candidate>) {
    && events != [] && T.MinedFrom(events, NightEnv(events, env, weekend), cfg, tods)
    && PairsMined(events, env.date, NightPairs(events, env, pairCfg), pairs)
  }

  /** One night of mining takes table to result. */
  ghost predicate MinedNight(table: P.Table, existing: seq<P.Stored>, events: seq<M.Event>, env: T.Env,
                             weekend: int -> bool, cfg: T.Config, pairCfg: M.Config, minedAt: int, result: P.Table) {
    exists tods: seq<P.Candidate>, pairs: seq<M.Candidate> ::
      && BothMined(events, env, weekend, cfg, pairCfg, tods, pairs)
      && P.NightlyRun(table, existing, tods, AsPatterns(pairs), cfg.tolerance, minedAt, result)
  }

  method RunMining(table: P.Table, existing: seq<P.Stored>, events: seq<M.Event>, env: T.Env, weekend: int -> bool,
                   cfg: T.Config, pairCfg: M.Config, minedAt: int) returns (result: P.Table)
    requires P.Lists(existing, table) && T.ClockReads(env) && cfg.tolerance > 0
    ensures if events == [] then result == table
        else MinedNight(table, existing, events, env, weekend, cfg, pairCfg, minedAt, result)
  {
    hide T.MinedFrom, PairsMined, P.NightlyRun;
    if events == [] {
      return table;
    }
    var dates := T.Dates(events, env);
    var byType := CountDays(dates, weekend);
    var tods := T.MineTimeOfDay(events, Counted(env, weekend, byType), cfg);
    var spanned := Spanned(pairCfg, events, |dates|);
    var pairs := M.MineEventPairs(events, env.date, spanned);
    PairsAreMined(events, env.date, spanned, pairs);
    result := P.RunMining(table, existing, tods, AsPatterns(pairs), cfg.tolerance, minedAt);
  }

  lemma PairsAreMined(events: seq<M.Event>, dateOf: int -> int, cfg: M.Config, pairs: seq<M.Candidate>)
    requires if M.Comparable(cfg) then M.Emits(M.Transitions(events), dateOf, cfg, pairs) else pairs == []
    ensures PairsMined(events, dateOf, cfg, pairs)
  {
  }

  /** The states of a mined pair are real states: the key text determines the pair. */
  lemma MinedStates(events: seq<M.Event>, dateOf: int -> int, cfg: M.Config, pairs: seq<M.Candidate>, c: M.Candidate)
    requires PairsMined(events, dateOf, cfg, pairs) && c in pairs
    ensures c.key.a.state.Some? && c.key.b.state.Some?
  {
    var tr := M.Transitions(events);
    M.FollowersAreFollowers(tr, cfg, c.key, |tr|);
    var i := M.Followers(tr, cfg, c.key, |tr|)[0];
    assert i in M.Followers(tr, cfg, c.key, |tr|);
    var j: nat :| M.Hit(tr, cfg, c.key, i, j);
    StateOf(events, tr[i]);
    StateOf(events, tr[j]);
  }

  lemma StateOf(events: seq<M.Event>, e: M.Event)
    ensures e in M.Transitions(events) ==> M.KeyOf(e).state.Some?
  {
    FilterMembers(M.IsTransition, Sort(events, M.ByTime()), e);
  }

  /** Mined pairs are fit for the table and never share a key, so the dedupe drops none. */
  lemma PairsKeepTheirKeys(events: seq<M.Event>, dateOf: int -> int, cfg: M.Config, pairs: seq<M.Candidate>)
    requires PairsMined(events, dateOf, cfg, pairs)
    ensures P.PairCandidates(AsPatterns(pairs)) && P.KeysDistinct(AsPatterns(pairs))
  {
    forall i, j | 0 <= i < j < |pairs| ensures AsPattern(pairs[i]).key != AsPattern(pairs[j]).key {
      MinedStates(events, dateOf, cfg, pairs, pairs[i]);
      MinedStates(events, dateOf, cfg, pairs, pairs[j]);
      assert pairs[i].key != pairs[j].key;
    }
  }

  /** A mined pair's row names trigger and target, and reports the pair's numbers. */
  lemma PairRowSays(events: seq<M.Event>, dateOf: int -> int, cfg: M.Config, pairs: seq<M.Candidate>, c: M.Candidate)
    requires M.Comparable(cfg) && PairsMined(events, dateOf, cfg, pairs) && c in pairs
    ensures c.key.a.state.Some? && c.key.b.state.Some?
    ensures var row, tr, a, b := AsPattern(c), M.Transitions(events), c.key.a, c.key.b;
            && row.key == P.PairKey(a.entity, a.state.value, b.entity, b.state.value)
            && row.habit == P.Habit(b.entity, b.state.value, None) && !row.isTod && row.tod == None
            && R.Worthy(tr, cfg, c.key) && row.occurrences == |R.Leaders(tr, cfg, c.key)|
            && row.metrics.confidence * R.Occurrences(tr, a) as real == row.occurrences as real
            && row.metrics.support * cfg.daysObservedTotal as real == |R.LedDays(tr, dateOf, cfg, c.key)| as real
            && (var chance := R.Chance(tr, cfg, b);
                if chance > 0.0 then row.metrics.lift * chance == row.metrics.confidence else row.metrics.lift == 0.0)
            && !row.metrics.suspectedSchedule && row.metrics.daysObserved == cfg.daysObservedTotal
            && row.firstSeen == c.firstSeen && row.lastSeen == c.lastSeen && R.SeenBetween(c, tr, cfg)
  {
    hide M.Emits, R.Worthy, R.Leaders, R.Occurrences, R.LedDays, R.Chance, R.SeenBetween, R.Samples;
    MinedStates(events, dateOf, cfg, pairs, c);
    R.EmittedIff(M.Transitions(events), dateOf, cfg, pairs, c.key);
  }

  // --------------------------------------------------- what a run may store

  predicate IsRatio(x: real) { 0.0 < x <= 1.0 }

  /** A time-of-day pattern's support counts days of its own day type. */
  lemma TodRatios(events: seq<M.Event>, env: T.Env, weekend: int -> bool, cfg: T.Config, found: T.Found,
                  origin: seq<(P.Habit, nat)>, tods: seq<P.Candidate>, i: nat)
    requires T.TodMined(events, NightEnv(events, env, weekend), cfg, found, origin, tods) && i < |tods|
    ensures IsRatio(tods[i].metrics.support) && IsRatio(tods[i].metrics.confidence)
  {
    hide T.CandidateOf, T.EventsOf, T.HabitClusters, T.TotalDays, T.Dates;
    var env', h := NightEnv(events, env, weekend), origin[i].0;
    assert T.CameFrom(events, env', cfg, found, h, origin[i].1, tods[i]);
    var evs := T.EventsOf(events, env', h);
    DaysOfHabit(events, env, weekend, h);
    var cluster := found[h][origin[i].1];
    assert Below(cluster, |evs|) && cluster != [] by { InClusters(evs, env', cfg, found[h], origin[i].1); }
    T.CandidateRatios(h, evs, cluster, env', cfg);
    SupportIsConfidence(h, evs, cluster, env', cfg);
  }

  lemma InClusters(evs: seq<M.Event>, env: T.Env, cfg: T.Config, clusters: seq<seq<nat>>, k: nat)
    requires T.HabitClusters(evs, env, cfg, clusters) && k < |clusters|
    ensures Below(clusters[k], |evs|) && clusters[k] != []
  {
  }

  lemma SupportIsConfidence(h: P.Habit, evs: seq<M.Event>, cluster: seq<nat>, env: T.Env, cfg: T.Config)
    requires Below(cluster, |evs|) && cluster != [] && T.TotalDays(env, h) > 0 && cfg.tolerance > 0
    requires T.CandidateOf(h, evs, cluster, env, cfg).Some?
    ensures var c := T.CandidateOf(h, evs, cluster, env, cfg).value; c.metrics.confidence == c.metrics.support
  {
  }

  /** The dates of a habit's events are observed dates of its day type. */
  lemma DaysOfHabit(events: seq<M.Event>, env: T.Env, weekend: int -> bool, h: P.Habit)
    ensures var env' := NightEnv(events, env, weekend);
            T.TotalDays(env', h) > 0 ==> |T.Dates(T.EventsOf(events, env', h), env')| <= T.TotalDays(env', h)
  {
    var env' := NightEnv(events, env, weekend);
    var evs := T.EventsOf(events, env', h);
    var dates := T.Dates(events, env);
    var its := DaysOn(dates, weekend, h.dayType == Some("weekend"));
    forall d | d in T.Dates(evs, env') ensures d in its {
      var i :| 0 <= i < |evs| && env.date(evs[i].time) == d;
      HabitEvent(events, env', h, evs[i]);
      var j :| 0 <= j < |events| && events[j] == evs[i];
    }
    SubsetSize(T.Dates(evs, env'), its);
  }

  lemma HabitEvent(events: seq<M.Event>, env: T.Env, h: P.Habit, e: M.Event)
    requires e in T.EventsOf(events, env, h)
    ensures e in events && h.dayType == Some(env.dayType(e.time))
  {
    HavingMembers(Filter(T.Mineable, events), T.HabitKey(env), h, e);
    FilterMembers(T.Mineable, events, e);
  }

  lemma PairRatios(events: seq<M.Event>, env: T.Env, pairCfg: M.Config, pairs: seq<M.Candidate>, c: M.Candidate)
    requires events != [] && PairsMined(events, env.date, NightPairs(events, env, pairCfg), pairs) && c in pairs
    ensures IsRatio(c.support) && IsRatio(c.confidence)
  {
    hide M.Mined;
    var cfg, tr := NightPairs(events, env, pairCfg), M.Transitions(events);
    var days := set e | e in tr :: env.date(e.time);
    forall d | d in days ensures d in T.Dates(events, env) {
      var e :| e in tr && env.date(e.time) == d;
      TransitionIsEvent(events, e);
      var j :| 0 <= j < |events| && events[j] == e;
    }
    SubsetSize(days, T.Dates(events, env));
    M.EmittedCounts(tr, env.date, cfg, c);
    M.EmittedSupport(tr, env.date, cfg, c);
  }

  lemma TransitionIsEvent(events: seq<M.Event>, e: M.Event)
    requires e in M.Transitions(events)
    ensures e in events
  {
    FilterMembers(M.IsTransition, Sort(events, M.ByTime()), e);
    SortIsPermutation(events, M.ByTime());
    assert e in multiset(Sort(events, M.ByTime()));
  }

  /** Whatever a run writes is a proportion: a row is left as it was, or its support and
      confidence are positive and at most one. */
  lemma StoredRatios(table: P.Table, existing: seq<P.Stored>, events: seq<M.Event>, env: T.Env, weekend: int -> bool,
                     cfg: T.Config, pairCfg: M.Config, minedAt: int, result: P.Table, k: P.Key)
    requires MinedNight(table, existing, events, env, weekend, cfg, pairCfg, minedAt, result) && k in result
    ensures (k in table && result[k] == table[k])
         || (IsRatio(result[k].metrics.support) && IsRatio(result[k].metrics.confidence))
  {
    hide T.TodMined, PairsMined, P.Reconcile, IsRatio;
    var tods: seq<P.Candidate>, pairs: seq<M.Candidate> :| BothMined(events, env, weekend, cfg, pairCfg, tods, pairs)
        && P.NightlyRun(table, existing, tods, AsPatterns(pairs), cfg.tolerance, minedAt, result);
    var found: T.Found, origin: seq<(P.Habit, nat)> :|
        T.TodMined(events, NightEnv(events, env, weekend), cfg, found, origin, tods);
    var c := WrittenBy(table, existing, tods, AsPatterns(pairs), cfg.tolerance, minedAt, result, k);
    if i: nat :| i < |tods| && c == Some(tods[i].metrics) {
      TodRatios(events, env, weekend, cfg, found, origin, tods, i);
    }
    if j: nat :| j < |pairs| && c == Some(AsPattern(pairs[j]).metrics) {
      PairRatios(events, env, pairCfg, pairs, pairs[j]);
    }
  }

  /** Where the metrics of a stored row come from, unless it is an old row. */
  lemma WrittenBy(table: P.Table, existing: seq<P.Stored>, tods: seq<P.Candidate>, pairs: seq<P.Candidate>,
                  tolerance: int, minedAt: int, result: P.Table, k: P.Key) returns (c: Option<P.Metrics>)
    requires P.NightlyRun(table, existing, tods, pairs, tolerance, minedAt, result) && k in result
    ensures c.None? ==> k in table && result[k] == table[k]
    ensures c.Some? ==> result[k].metrics == c.value
    ensures c.Some? ==>
              (exists i: nat :: i < |tods| && c == Some(tods[i].metrics))
              || (exists j: nat :: j < |pairs| && c == Some(pairs[j].metrics))
  {
    hide P.Ranking, P.Adopted;
    var out := P.Reconcile(tods, existing, tolerance);
    var kept: seq<P.Candidate> :| P.Deduped(out + pairs, kept) && P.Upserted(table, kept, minedAt, result);
    if k !in P.KeysOf(kept) {
      return None;
    }
    var m :| 0 <= m < |kept| && kept[m].key == k;
    assert kept[m] in kept;
    var n: nat :| n < |out + pairs| && (out + pairs)[n] == kept[m];
    c := Some(kept[m].metrics);
    if n < |out| {
      P.ReconcilePermutes(tods, existing, tolerance, n);
      assert c == Some(tods[P.Ranking(tods, existing, tolerance)[n].index].metrics);
    } else {
      assert c == Some(pairs[n - |out|].metrics);
    }
  }

  // -------------------------------------------------------- keys over the nights

  lemma TodKeyIsNoPair(tods: seq<P.Candidate>, pairs: seq<P.Candidate>, i: nat)
    requires P.TodCandidates(tods) && P.PairCandidates(pairs) && i < |tods|
    ensures tods[i].key !in P.KeysOf(pairs)
  {
  }

  lemma ClusteringsFound(events: seq<M.Event>, env: T.Env, cfg: T.Config, found: T.Found,
                         origin: seq<(P.Habit, nat)>, tods: seq<P.Candidate>)
    requires T.TodMined(events, env, cfg, found, origin, tods)
    ensures T.ClustersFound(events, env, cfg, found) && cfg.tolerance > 0
  {
  }

  /** From the events on: a night adds no time-of-day key exactly when each mined habit wins
      a stored pattern of its own or finds its own key; where the cluster gap suffices, being
      within tolerance of one is enough. */
  lemma NightKeepsKeysIff(table: P.Table, existing: seq<P.Stored>, result: P.Table, events: seq<M.Event>, env: T.Env,
                          cfg: T.Config, found: T.Found, origin: seq<(P.Habit, nat)>, tods: seq<P.Candidate>,
                          pairCfg: M.Config, pairs: seq<M.Candidate>, minedAt: int)
    requires T.TodMined(events, env, cfg, found, origin, tods) && PairsMined(events, env.date, pairCfg, pairs)
    requires P.NightlyRun(table, existing, tods, AsPatterns(pairs), cfg.tolerance, minedAt, result)
    ensures result.Keys == table.Keys + P.KeysOf(AsPatterns(pairs))
       <==> forall i: nat :: i < |tods| ==> P.Wins(tods, existing, cfg.tolerance, i) || tods[i].key in table
    ensures T.ShortClusters(events, env, cfg, found) && T.Rounds(env) && T.GapSuffices(cfg.gap, cfg.tolerance, true) ==>
              (result.Keys == table.Keys + P.KeysOf(AsPatterns(pairs))
          <==> forall i: nat :: i < |tods| ==>
                 P.HasRowInRange(tods[i], existing, cfg.tolerance) || tods[i].key in table)
  {
    hide T.TodMined, T.ShortClusters, T.Rounds, T.GapSuffices, P.NightlyRun, P.HasRowInRange, P.Wins, PairsMined,
        P.KeysOf, P.TodCandidates, P.PairCandidates;
    ClusteringsFound(events, env, cfg, found, origin, tods);
    T.TodsFit(events, env, cfg, found, origin, tods);
    PairsKeepTheirKeys(events, env.date, pairCfg, pairs);
    forall i: nat | i < |tods| ensures tods[i].key !in P.KeysOf(AsPatterns(pairs)) {
      TodKeyIsNoPair(tods, AsPatterns(pairs), i);
    }
    P.NightAddsNoKeyIff(table, existing, tods, AsPatterns(pairs), cfg.tolerance, minedAt, result);
    assert forall i: nat :: i < |tods| ==>
        (P.Settles(tods, table, existing, AsPatterns(pairs), cfg.tolerance, i) <==>
         P.Wins(tods, existing, cfg.tolerance, i) || tods[i].key in table);
    if T.ShortClusters(events, env, cfg, found) && T.Rounds(env) && T.GapSuffices(cfg.gap, cfg.tolerance, true) {
      T.MinedReconcileCleanly(events, env, cfg, found, origin, tods, true);
      P.SeparatedNightAddsNoKeyIff(table, existing, tods, AsPatterns(pairs), cfg.tolerance, minedAt, result);
      assert forall i: nat :: i < |tods| ==>
          (P.Anchored(tods[i], table, existing, AsPatterns(pairs), cfg.tolerance) <==>
           P.HasRowInRange(tods[i], existing, cfg.tolerance) || tods[i].key in table);
    }
  }

  /** Two nights with the same events: the second adds no key exactly when each habit wins a
      row of the first night's table or finds its own key there. At any gap of a tenth of a
      minute or more those that kept a row of their own do; where the gap suffices, being
      within tolerance of a row is enough. */
  lemma RepeatedNightIff(table: P.Table, listing: seq<P.Stored>, first: P.Table, listing': seq<P.Stored>,
                         second: P.Table, events: seq<M.Event>, env: T.Env, cfg: T.Config, found: T.Found,
                         origin: seq<(P.Habit, nat)>, tods: seq<P.Candidate>, pairs: seq<M.Candidate>, night: int,
                         night': int)
    requires T.TodMined(events, env, cfg, found, origin, tods)
    requires P.NightlyRun(table, listing, tods, AsPatterns(pairs), cfg.tolerance, night, first)
    requires P.NightlyRun(first, listing', tods, AsPatterns(pairs), cfg.tolerance, night', second)
    ensures second.Keys == first.Keys
       <==> forall i: nat :: i < |tods| ==> P.Wins(tods, listing', cfg.tolerance, i) || tods[i].key in first
    ensures T.ShortClusters(events, env, cfg, found) && T.Rounds(env) && cfg.gap >= TENTH ==>
              forall i: nat :: i < |tods| && P.KeptRow(tods[i], first) ==> P.Wins(tods, listing', cfg.tolerance, i)
    ensures T.ShortClusters(events, env, cfg, found) && T.Rounds(env) && T.GapSuffices(cfg.gap, cfg.tolerance, true) ==>
              (second.Keys == first.Keys
          <==> forall i: nat :: i < |tods| ==>
                 P.HasRowInRange(tods[i], listing', cfg.tolerance) || tods[i].key in first)
  {
    hide T.TodMined, T.ShortClusters, T.Rounds, T.GapSuffices, P.NightlyRun, P.HasRowInRange, P.Wins, P.KeptRow,
        P.TimesDiffer, P.TodCandidates, P.WellSeparated;
    ClusteringsFound(events, env, cfg, found, origin, tods);
    P.SecondNightAddsNoKeyIff(table, listing, first, listing', second, tods, AsPatterns(pairs), cfg.tolerance, night,
        night');
    if T.ShortClusters(events, env, cfg, found) && T.Rounds(env) {
      T.MinedReconcileCleanly(events, env, cfg, found, origin, tods, true);
      if T.GapSuffices(cfg.gap, cfg.tolerance, true) {
        P.SeparatedSecondNightIff(table, listing, first, listing', second, tods, AsPatterns(pairs), cfg.tolerance,
            night, night');
      }
    }
  }

  /** At the configured settings too: if the first night's keys did not collide, mining the
      same events again adds none. */
  lemma RepeatedNightIsStable(table: P.Table, listing: seq<P.Stored>, first: P.Table, listing': seq<P.Stored>,
                              second: P.Table, events: seq<M.Event>, env: T.Env, cfg: T.Config, found: T.Found,
                              origin: seq<(P.Habit, nat)>, tods: seq<P.Candidate>, pairCfg: M.Config,
                              pairs: seq<M.Candidate>, night: int, night': int)
    requires T.TodMined(events, env, cfg, found, origin, tods) && T.ShortClusters(events, env, cfg, found)
    requires PairsMined(events, env.date, pairCfg, pairs) && T.Rounds(env) && cfg.gap >= TENTH && P.WellKeyed(table)
    requires P.NightlyRun(table, listing, tods, AsPatterns(pairs), cfg.tolerance, night, first)
    requires P.NightlyRun(first, listing', tods, AsPatterns(pairs), cfg.tolerance, night', second)
    requires P.KeysDistinct(P.Reconcile(tods, listing, cfg.tolerance))
    ensures second.Keys == first.Keys
  {
    hide T.TodMined, T.ShortClusters, T.Rounds, P.NightlyRun, P.Reconcile, P.KeysDistinct, P.WellKeyed, PairsMined;
    ClusteringsFound(events, env, cfg, found, origin, tods);
    T.MinedReconcileCleanly(events, env, cfg, found, origin, tods, true);
    PairsKeepTheirKeys(events, env.date, pairCfg, pairs);
    P.RemineIsStable(table, listing, first, listing', second, tods, AsPatterns(pairs), cfg.tolerance, night, night');
  }
}
