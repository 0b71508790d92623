/** What a mined habit says (src/pae/miner/tod.py): which events make it up, when it is
    emitted, its numbers, and above all when it is suspected to be a schedule. */
module HabitReport {
  import opened Prelude
  import opened Circle
  import opened Sorting
  import opened Bucketing
  import opened Clusters
  import opened TodMiner
  import R = PairReport
  import M = PairMiner
  import P = PatternKeys

  /** A switch by hand, in a domain that can be acted on, into the habit's state, on a day
      of its type. */
  predicate Belongs(e: M.Event, env: Env, h: P.Habit) {
    && e.triggeredBy == "manual" && e.domain in M.ACTIONABLE_DOMAINS
    && e.newState.Some? && e.newState != Some("") && e.newState != e.oldState
    && h == P.Habit(e.entity, e.newState.value, Some(env.dayType(e.time)))
  }

  /** A habit is mined from exactly the events that belong to it. */
  lemma HabitEvents(events: seq<M.Event>, env: Env, h: P.Habit, e: M.Event)
    ensures multiset(EventsOf(events, env, h))[e] == if Belongs(e, env, h) then multiset(events)[e] else 0
  {
    HavingCounts(Filter(Mineable, events), HabitKey(env), h, e);
    FilterCounts(Mineable, events, e);
  }

  // ------------------------------------------------------- numbers of a cluster

  /** The clock times of a cluster's events, as listed. */
  function TimesOf(evs: seq<M.Event>, cluster: seq<nat>, env: Env): (ts: seq<int>)
    requires Below(cluster, |evs|)
    ensures |ts| == |cluster|
  {
    seq(|cluster|, i requires 0 <= i < |cluster| => env.second(evs[cluster[i]].time))
  }

  ghost function DaysOf(evs: seq<M.Event>, cluster: seq<nat>, env: Env): set<int>
    requires Below(cluster, |evs|)
  {
    set i | 0 <= i < |cluster| :: env.date(evs[cluster[i]].time)
  }

  /** Positions of the cluster whose clock is within the tolerance of m. */
  ghost function Near(ts: seq<int>, m: int, tolerance: int): set<nat> {
    set i: nat | i < |ts| && Dist(ts[i], m) <= tolerance
  }

  /** No event of the cluster has a user id. */
  ghost predicate Userless(evs: seq<M.Event>, cluster: seq<nat>)
    requires Below(cluster, |evs|)
  {
    forall i :: 0 <= i < |cluster| ==> evs[cluster[i]].userId == None
  }

  /** sunset or sunrise on the date of each event, where the sun rises and sets that day. */
  ghost function FromSun(evs: seq<M.Event>, cluster: seq<nat>, env: Env, sunset: bool, offsets: seq<int>): bool
    requires Below(cluster, |evs|)
  {
    && env.sun.Some? && |offsets| == |cluster|
    && forall i :: 0 <= i < |cluster| ==>
         var today := env.sun.value(env.date(evs[cluster[i]].time));
         && today.Some?
         && offsets[i] == CircularDiff(env.second(evs[cluster[i]].time),
                                       if sunset then today.value.1 else today.value.0)
  }

  /** Its offsets from sunrise, or from sunset, vary little, and less than its clock times,
      over a window long enough to tell. */
  ghost predicate OnTheSun(evs: seq<M.Event>, cluster: seq<nat>, env: Env, cfg: Config)
    requires Below(cluster, |evs|)
  {
    && (exists i, j :: 0 <= i < |cluster| && 0 <= j < |cluster|
          && env.date(evs[cluster[j]].time) + cfg.sunMinSpan <= env.date(evs[cluster[i]].time))
    && exists sunset: bool, offsets: seq<int> ::
         FromSun(evs, cluster, env, sunset, offsets)
         && env.spread(offsets) <= cfg.sunStd && env.spread(offsets) < env.std(TimesOf(evs, cluster, env))
  }

  /** On the clock to within the threshold, or on the sun, and nobody's doing. */
  ghost predicate LooksScheduled(evs: seq<M.Event>, cluster: seq<nat>, env: Env, cfg: Config)
    requires Below(cluster, |evs|)
  {
    && Userless(evs, cluster)
    && (env.std(TimesOf(evs, cluster, env)) <= cfg.scheduleStd || OnTheSun(evs, cluster, env, cfg))
  }

  /** Enough events, on enough of the observed days. */
  ghost predicate Frequent(h: P.Habit, evs: seq<M.Event>, cluster: seq<nat>, env: Env, cfg: Config)
    requires Below(cluster, |evs|)
  {
    && |cluster| >= cfg.minOccurrences
    && |DaysOf(evs, cluster, env)| as real >= cfg.minSupport * TotalDays(env, h) as real
  }

  /** c reports these numbers of the cluster. */
  ghost predicate Reports(c: P.Candidate, h: P.Habit, evs: seq<M.Event>, cluster: seq<nat>, env: Env, cfg: Config)
    requires Below(cluster, |evs|)
  {
    var ts := TimesOf(evs, cluster, env);
    && c.isTod && c.habit == h && c.tod == Some(env.rounded(ts))
    && c.key == P.TodKey(h.entity, h.action, h.dayType, env.mean(ts) / HALF_HOUR)
    && c.occurrences == |cluster| && c.metrics.daysObserved == TotalDays(env, h)
    && c.metrics.support * TotalDays(env, h) as real == |DaysOf(evs, cluster, env)| as real
    && c.metrics.confidence == c.metrics.support && c.metrics.std == Some(env.std(ts))
    && c.metrics.consistency.Some?
    && c.metrics.consistency.value * |cluster| as real == |Near(ts, env.mean(ts), cfg.tolerance)| as real
    && c.metrics.lift * (2 * cfg.tolerance) as real == c.metrics.consistency.value * DAY as real
    && SeenBetween(c, evs, cluster)
    && (c.metrics.suspectedSchedule <==> LooksScheduled(evs, cluster, env, cfg))
  }

  ghost predicate SeenBetween(c: P.Candidate, evs: seq<M.Event>, cluster: seq<nat>)
    requires Below(cluster, |evs|)
  {
    && (forall i :: 0 <= i < |cluster| ==> c.firstSeen <= evs[cluster[i]].time <= c.lastSeen)
    && (exists i :: 0 <= i < |cluster| && evs[cluster[i]].time == c.firstSeen)
    && (exists i :: 0 <= i < |cluster| && evs[cluster[i]].time == c.lastSeen)
  }

  // -------------------------------------------------- the miner's terms are these

  lemma PickedTimes(evs: seq<M.Event>, cluster: seq<nat>, env: Env)
    requires Below(cluster, |evs|)
    ensures Pick(Seconds(evs, env), cluster) == TimesOf(evs, cluster, env)
    ensures Dates(Pick(evs, cluster), env) == DaysOf(evs, cluster, env)
    ensures NoUser(Pick(evs, cluster)) <==> Userless(evs, cluster)
  {
    var cevs := Pick(evs, cluster);
    forall i | 0 <= i < |cluster| ensures cevs[i] == evs[cluster[i]] {
    }
  }

  lemma WithinIsNear(ts: seq<int>, m: int, tolerance: int)
    ensures Within(ts, m, tolerance) == |Near(ts, m, tolerance)|
  {
    var near := (t: int) => Dist(t, m) <= tolerance;
    FilterSize(near, ts);
    assert Picked(near, ts) == Near(ts, m, tolerance);
  }

  lemma SpansAre(evs: seq<M.Event>, cluster: seq<nat>, env: Env, days: int)
    requires Below(cluster, |evs|)
    ensures SpansDays(Pick(evs, cluster), env, days)
       <==> exists i, j :: 0 <= i < |cluster| && 0 <= j < |cluster|
                && env.date(evs[cluster[j]].time) + days <= env.date(evs[cluster[i]].time)
  {
    var cevs := Pick(evs, cluster);
    if i, j :| 0 <= i < |cluster| && 0 <= j < |cluster|
               && env.date(evs[cluster[j]].time) + days <= env.date(evs[cluster[i]].time) {
      assert env.date(cevs[i].time) - env.date(cevs[j].time) >= days;
    }
  }

  lemma OffsetsAre(evs: seq<M.Event>, cluster: seq<nat>, env: Env, sunset: bool, offsets: seq<int>)
    requires Below(cluster, |evs|) && env.sun.Some?
    ensures var suns := SunTimes(Pick(evs, cluster), env, env.sun.value);
            FromSun(evs, cluster, env, sunset, offsets)
            <==> AllKnown(suns) && offsets == SunOffsets(TimesOf(evs, cluster, env), suns, sunset)
  {
    var cevs, ts := Pick(evs, cluster), TimesOf(evs, cluster, env);
    var suns := SunTimes(cevs, env, env.sun.value);
    forall i | 0 <= i < |cluster|
      ensures suns[i] == env.sun.value(env.date(evs[cluster[i]].time)) && ts[i] == env.second(evs[cluster[i]].time) {
    }
    if FromSun(evs, cluster, env, sunset, offsets) {
      assert AllKnown(suns);
      assert offsets == SunOffsets(ts, suns, sunset);
    }
  }

  lemma SunTrackedIs(evs: seq<M.Event>, cluster: seq<nat>, env: Env, cfg: Config)
    requires Below(cluster, |evs|)
    ensures var ts := TimesOf(evs, cluster, env);
            SunTracked(Pick(evs, cluster), ts, env.std(ts), env, cfg) <==> OnTheSun(evs, cluster, env, cfg)
  {
    hide SpansDays, FromSun, SunOffsets, SunTimes, AllKnown, TimesOf;
    SpansAre(evs, cluster, env, cfg.sunMinSpan);
    if env.sun.Some? {
      var ts, suns := TimesOf(evs, cluster, env), SunTimes(Pick(evs, cluster), env, env.sun.value);
      forall sunset: bool, offsets: seq<int>
        ensures FromSun(evs, cluster, env, sunset, offsets)
           <==> AllKnown(suns) && offsets == SunOffsets(ts, suns, sunset)
      {
        OffsetsAre(evs, cluster, env, sunset, offsets);
      }
      if SunTracked(Pick(evs, cluster), ts, env.std(ts), env, cfg) {
        var sunset := !Follows(env.spread(SunOffsets(ts, suns, false)), env.std(ts), cfg);
        assert FromSun(evs, cluster, env, sunset, SunOffsets(ts, suns, sunset));
      }
      if OnTheSun(evs, cluster, env, cfg) {
        var sunset: bool, offsets: seq<int> :| FromSun(evs, cluster, env, sunset, offsets)
            && env.spread(offsets) <= cfg.sunStd && env.spread(offsets) < env.std(ts);
        assert offsets == SunOffsets(ts, suns, sunset);
      }
    } else {
      forall sunset: bool, offsets: seq<int> ensures !FromSun(evs, cluster, env, sunset, offsets) {
        NoSun(evs, cluster, env, sunset, offsets);
      }
    }
  }

  lemma NoSun(evs: seq<M.Event>, cluster: seq<nat>, env: Env, sunset: bool, offsets: seq<int>)
    requires Below(cluster, |evs|) && env.sun.None?
    ensures !FromSun(evs, cluster, env, sunset, offsets)
  {
  }

  // ------------------------------------------------------------- what is emitted

  lemma FrequentIff(h: P.Habit, evs: seq<M.Event>, cluster: seq<nat>, env: Env, cfg: Config)
    requires Below(cluster, |evs|) && cluster != [] && TotalDays(env, h) > 0 && cfg.tolerance > 0
    ensures CandidateOf(h, evs, cluster, env, cfg).Some? <==> Frequent(h, evs, cluster, env, cfg)
  {
    hide TimesOf, DaysOf, Dates, NoUser, SunTracked, Within;
    PickedTimes(evs, cluster, env);
    R.AtLeast(|DaysOf(evs, cluster, env)| as real, TotalDays(env, h) as real, cfg.minSupport);
  }

  lemma CandidateReports(h: P.Habit, evs: seq<M.Event>, cluster: seq<nat>, env: Env, cfg: Config)
    requires Below(cluster, |evs|) && cluster != [] && TotalDays(env, h) > 0 && cfg.tolerance > 0
    requires CandidateOf(h, evs, cluster, env, cfg).Some?
    ensures Reports(CandidateOf(h, evs, cluster, env, cfg).value, h, evs, cluster, env, cfg)
  {
    hide TimesOf, DaysOf, Dates, NoUser, SunTracked, Within, Near, Pick, OnTheSun, Userless, SeenBetween, Sort;
    var c := CandidateOf(h, evs, cluster, env, cfg).value;
    var ts := TimesOf(evs, cluster, env);
    PickedTimes(evs, cluster, env);
    WithinIsNear(ts, env.mean(ts), cfg.tolerance);
    SunTrackedIs(evs, cluster, env, cfg);
    RatiosAre(|DaysOf(evs, cluster, env)|, TotalDays(env, h), |Near(ts, env.mean(ts), cfg.tolerance)|, |cluster|,
              cfg.tolerance);
    SortKeepsLength(M.TimesOf(Pick(evs, cluster)));
    SeenAt(c, evs, cluster);
  }

  /** Support, consistency and lift, multiplied out. */
  lemma RatiosAre(days: nat, total: nat, within: nat, size: nat, tolerance: int)
    requires total > 0 && size > 0 && tolerance > 0
    ensures days as real / total as real * total as real == days as real
    ensures var consistency := within as real / size as real;
            && consistency * size as real == within as real
            && consistency / ((2 * tolerance) as real / DAY as real) * (2 * tolerance) as real
               == consistency * DAY as real
  {
    M.Quotient(days as real, total as real);
    M.Quotient(within as real, size as real);
    LiftIs(within as real / size as real, tolerance);
  }

  lemma LiftIs(consistency: real, tolerance: int)
    requires tolerance > 0
    ensures consistency / ((2 * tolerance) as real / DAY as real) * (2 * tolerance) as real == consistency * DAY as real
  {
    var y := (2 * tolerance) as real / DAY as real;
    assert y * DAY as real == (2 * tolerance) as real;
    M.Quotient(consistency, y);
    var q := consistency / y;
    assert q * (y * DAY as real) == q * y * DAY as real;
  }

  lemma SeenAt(c: P.Candidate, evs: seq<M.Event>, cluster: seq<nat>)
    requires Below(cluster, |evs|) && cluster != []
    requires var times := Sort(M.TimesOf(Pick(evs, cluster)), M.Ascending());
             |times| == |cluster| && c.firstSeen == times[0] && c.lastSeen == times[|times| - 1]
    ensures SeenBetween(c, evs, cluster)
  {
    hide Sort;
    var cevs := Pick(evs, cluster);
    var times := M.TimesOf(cevs);
    R.EndsOf(times);
    forall i | 0 <= i < |cluster| ensures evs[cluster[i]].time == times[i] {
      TimesAt(cevs, i);
    }
    forall i | 0 <= i < |cluster| ensures c.firstSeen <= evs[cluster[i]].time <= c.lastSeen {
      assert times[i] in times;
    }
    var i :| 0 <= i < |times| && times[i] == c.firstSeen;
    var j :| 0 <= j < |times| && times[j] == c.lastSeen;
    assert evs[cluster[i]].time == c.firstSeen && evs[cluster[j]].time == c.lastSeen;
  }

  lemma {:induction false} TimesAt(es: seq<M.Event>, i: nat)
    requires i < |es|
    ensures M.TimesOf(es)[i] == es[i].time
  {
    if i > 0 {
      TimesAt(es[1..], i - 1);
    }
  }

  /** What the miner returns: a candidate for exactly the frequent clusters, with the
      numbers of its cluster, flagged if and only if the cluster looks scheduled. */
  lemma MinedIff(events: seq<M.Event>, env: Env, cfg: Config, found: Found, origin: seq<(P.Habit, nat)>,
                 out: seq<P.Candidate>, h: P.Habit, k: nat)
    requires TodMined(events, env, cfg, found, origin, out) && h in found && k < |found[h]|
    ensures Below(found[h][k], |EventsOf(events, env, h)|)
    ensures (h, k) in origin <==> Frequent(h, EventsOf(events, env, h), found[h][k], env, cfg)
    ensures forall i :: 0 <= i < |out| && origin[i] == (h, k) ==>
              Reports(out[i], h, EventsOf(events, env, h), found[h][k], env, cfg)
  {
    hide CandidateOf, EventsOf, Reports, Frequent;
    var evs := EventsOf(events, env, h);
    assert Below(found[h][k], |evs|) && found[h][k] != [];
    FrequentIff(h, evs, found[h][k], env, cfg);
    var c := CandidateOf(h, evs, found[h][k], env, cfg);
    if c.Some? {
      CandidateReports(h, evs, found[h][k], env, cfg);
      assert CameFrom(events, env, cfg, found, h, k, c.value);
    }
    forall i | 0 <= i < |out| && origin[i] == (h, k)
      ensures c == Some(out[i]) {
      assert CameFrom(events, env, cfg, found, origin[i].0, origin[i].1, out[i]);
    }
  }

  /** One event of the cluster with a user id clears the flag, and changes nothing else. */
  lemma UserIdClears(h: P.Habit, evs: seq<M.Event>, cluster: seq<nat>, env: Env, cfg: Config, m: nat, user: string)
    requires Below(cluster, |evs|) && TotalDays(env, h) > 0 && cfg.tolerance > 0 && m in cluster
    requires CandidateOf(h, evs, cluster, env, cfg).Some?
    ensures var evs' := evs[m := evs[m].(userId := Some(user))];
            var c, c' := CandidateOf(h, evs, cluster, env, cfg), CandidateOf(h, evs', cluster, env, cfg);
            && c'.Some? && !c'.value.metrics.suspectedSchedule
            && c'.value == c.value.(metrics := c.value.metrics.(suspectedSchedule := false))
  {
    hide SunTracked, Within, Dates;
    var evs' := evs[m := evs[m].(userId := Some(user))];
    var i :| 0 <= i < |cluster| && cluster[i] == m;
    assert Pick(evs', cluster)[i].userId.Some?;
    assert Seconds(evs', env) == Seconds(evs, env);
    SameDates(evs, evs', cluster, env);
    SameTimes(Pick(evs, cluster), Pick(evs', cluster));
  }

  lemma SameDates(evs: seq<M.Event>, evs': seq<M.Event>, cluster: seq<nat>, env: Env)
    requires |evs| == |evs'| && Below(cluster, |evs|) && forall i :: 0 <= i < |evs| ==> evs[i].time == evs'[i].time
    ensures Dates(Pick(evs, cluster), env) == Dates(Pick(evs', cluster), env)
  {
    PickedTimes(evs, cluster, env);
    PickedTimes(evs', cluster, env);
  }

  lemma {:induction false} SameTimes(es: seq<M.Event>, es': seq<M.Event>)
    requires |es| == |es'| && forall i :: 0 <= i < |es| ==> es[i].time == es'[i].time
    ensures M.TimesOf(es) == M.TimesOf(es')
  {
    if es != [] {
      SameTimes(es[1..], es'[1..]);
    }
  }
}
