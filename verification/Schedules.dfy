/** From the events to the proposer: what looks like a schedule at night is out of reach
    of every proposal (src/pae/miner/tod.py, src/pae/miner/service.py,
    src/pae/proposer/gates.py), unless its row is displaced. */
module Schedules {
  import opened Prelude
  import opened Clusters
  import opened Gates
  import opened ProposalGroups
  import opened Schema
  import opened Proposer
  import T = TodMiner
  import H = HabitReport
  import M = PairMiner
  import P = PatternKeys

  // ------------------------------------------------------- the table as read

  /** A row of the patterns table as the proposer reads it. */
  function AsRead(key: P.Key, row: P.Row): Pattern {
    var kind :=
      if row.isTod && row.tod.Some? then
        TimeOfDay(row.habit.dayType, row.tod.value, row.metrics.std, row.metrics.consistency)
      else if !row.isTod && key.PairKey? then EventPair(key.trigger, key.triggerState)
      else OtherKind;
    Pattern(key, kind, row.habit.entity, row.habit.action, row.metrics.suspectedSchedule, row.status, row.occurrences,
            row.metrics.support, row.metrics.confidence, row.metrics.lift, row.metrics.daysObserved)
  }

  ghost predicate ReadFrom(stored: seq<Pattern>, table: P.Table) {
    forall p :: p in stored <==> exists k :: k in table && p == AsRead(k, table[k])
  }

  // ------------------------------------------------------ a kept candidate's row

  lemma KeptIsUnique(cands: seq<P.Candidate>, c: P.Candidate, d: P.Candidate)
    requires P.IsKept(cands, c) && P.IsKept(cands, d) && c.key == d.key
    ensures c == d
  {
    var i: nat :| i < |cands| && cands[i] == c && P.Kept(cands, i, |cands|);
    var j: nat :| j < |cands| && cands[j] == d && P.Kept(cands, j, |cands|);
    assert i == j;
  }

  /** The candidate the dedupe keeps for its key is what the row says afterwards. */
  lemma KeptIsStored(table: P.Table, existing: seq<P.Stored>, tods: seq<P.Candidate>, pairs: seq<P.Candidate>,
                     tolerance: int, minedAt: int, result: P.Table, i: nat)
    requires P.NightlyRun(table, existing, tods, pairs, tolerance, minedAt, result)
    requires P.WellKeyed(table) && P.TodCandidates(tods) && P.PairCandidates(pairs) && i < |tods|
    requires P.IsKept(P.Reconcile(tods, existing, tolerance) + pairs, P.Adopted(tods, existing, tolerance, i))
    ensures var k := P.AdoptedKey(tods, existing, tolerance, i);
            && k in result && result[k].isTod && result[k].habit == tods[i].habit && result[k].tod == tods[i].tod
            && result[k].metrics == tods[i].metrics && result[k].occurrences == tods[i].occurrences
  {
    hide P.Reconcile, P.Adopted, P.IsKept;
    var all := P.Reconcile(tods, existing, tolerance) + pairs;
    var c := P.Adopted(tods, existing, tolerance, i);
    var kept: seq<P.Candidate> :| P.Deduped(all, kept) && P.Upserted(table, kept, minedAt, result);
    P.AdoptedFits(table, existing, tods, tolerance, i);
    P.KeyIsListed(tods, existing, tolerance, i);
    P.KeysOfConcat(P.Reconcile(tods, existing, tolerance), pairs);
    assert P.AdoptedKey(tods, existing, tolerance, i) == c.key && c.key in P.KeysOf(kept);
    var m :| 0 <= m < |kept| && kept[m].key == c.key;
    assert kept[m] in kept;
    KeptIsUnique(all, c, kept[m]);
  }

  // -------------------------------------------------------- kept out of groups

  lemma FlaggedIsOut(stored: seq<Pattern>, q: Pattern, registry: set<string>, l: Limits, window: int,
                     meanOf: seq<int> -> int, groups: seq<ProposalGroup>, g: nat)
    requires AreGroups(EligibleOf(stored, registry, l), window, meanOf, groups) && g < |groups|
    requires q in stored && q.kind.TimeOfDay? && q.suspectedSchedule
    ensures q.entity !in AllowedEntities(AsMined(groups[g]))
  {
    hide AreGroups, Eligible, Presentable;
    var ps := groups[g].patterns;
    FirstPattern(EligibleOf(stored, registry, l), window, meanOf, groups, g);
    forall m | 0 <= m < |ps|
      ensures ps[m].entity != q.entity && (groups[g].PairGroup? ==> groups[g].trigger != q.entity)
    {
      MemberKinds(EligibleOf(stored, registry, l), window, meanOf, groups, g, ps[m]);
      EligibleIsSafe(stored, registry, l, ps[m]);
      PresentableIsUnscheduled(ps[m], stored, registry, l, q);
    }
    assert groups[g].PairGroup? ==> groups[g].trigger != q.entity && ps[0].entity != q.entity;
  }

  lemma FirstPattern(eligible: seq<Pattern>, window: int, meanOf: seq<int> -> int, groups: seq<ProposalGroup>, g: nat)
    requires AreGroups(eligible, window, meanOf, groups) && g < |groups|
    ensures groups[g].patterns != []
  {
    assert Members(groups)[g] == groups[g].patterns;
  }

  lemma PresentableIsUnscheduled(p: Pattern, stored: seq<Pattern>, registry: set<string>, l: Limits, q: Pattern)
    requires Presentable(p, stored, registry, l) && q in stored && q.kind.TimeOfDay? && q.suspectedSchedule
    ensures p.entity != q.entity && (p.kind.EventPair? ==> p.kind.trigger != q.entity)
  {
  }

  /** A cluster that looks scheduled, once mined and kept, keeps its entity out of every
      proposal group of the next run: as a member and as a trigger. */
  lemma ScheduleIsKeptOut(events: seq<M.Event>, env: T.Env, cfg: T.Config, found: T.Found,
                          origin: seq<(P.Habit, nat)>, tods: seq<P.Candidate>, i: nat, pairs: seq<P.Candidate>,
                          table: P.Table, existing: seq<P.Stored>, minedAt: int, result: P.Table,
                          stored: seq<Pattern>, registry: set<string>, l: Limits, window: int,
                          meanOf: seq<int> -> int, groups: seq<ProposalGroup>, g: nat)
    requires T.TodMined(events, env, cfg, found, origin, tods) && i < |tods|
    requires var (h, k) := origin[i];
             h in found && k < |found[h]| && Below(found[h][k], |T.EventsOf(events, env, h)|)
             && H.LooksScheduled(T.EventsOf(events, env, h), found[h][k], env, cfg)
    requires P.NightlyRun(table, existing, tods, pairs, cfg.tolerance, minedAt, result)
    requires P.WellKeyed(table) && P.PairCandidates(pairs)
    requires P.IsKept(P.Reconcile(tods, existing, cfg.tolerance) + pairs, P.Adopted(tods, existing, cfg.tolerance, i))
    requires ReadFrom(stored, result) && AreGroups(EligibleOf(stored, registry, l), window, meanOf, groups)
    requires g < |groups|
    ensures origin[i].0.entity !in AllowedEntities(AsMined(groups[g]))
  {
    hide T.TodMined, P.NightlyRun, P.IsKept, P.Reconcile, P.Adopted, AreGroups, H.LooksScheduled, T.EventsOf;
    T.TodsFit(events, env, cfg, found, origin, tods);
    FlagIsMined(events, env, cfg, found, origin, tods, i);
    KeptIsStored(table, existing, tods, pairs, cfg.tolerance, minedAt, result, i);
    var k := P.AdoptedKey(tods, existing, cfg.tolerance, i);
    var q := AsRead(k, result[k]);
    assert q in stored;
    FlaggedIsOut(stored, q, registry, l, window, meanOf, groups, g);
  }

  lemma FlagIsMined(events: seq<M.Event>, env: T.Env, cfg: T.Config, found: T.Found, origin: seq<(P.Habit, nat)>,
                    tods: seq<P.Candidate>, i: nat)
    requires T.TodMined(events, env, cfg, found, origin, tods) && i < |tods|
    requires var (h, k) := origin[i];
             h in found && k < |found[h]| && Below(found[h][k], |T.EventsOf(events, env, h)|)
             && H.LooksScheduled(T.EventsOf(events, env, h), found[h][k], env, cfg)
    ensures tods[i].metrics.suspectedSchedule && tods[i].habit == origin[i].0
    ensures tods[i].isTod && tods[i].tod.Some?
  {
    hide H.LooksScheduled, T.EventsOf, T.CameFrom;
    var (h, k) := origin[i];
    H.MinedIff(events, env, cfg, found, origin, tods, h, k);
    assert H.Reports(tods[i], h, T.EventsOf(events, env, h), found[h][k], env, cfg);
  }

  // ------------------------------------------- why being kept must be assumed

  /** The dedupe can drop the flag: a schedule that has drifted adopts the key under which a
      busier newcomer is born, and after the night no stored pattern flags the entity. */
  lemma CollisionHidesSchedule(metrics: P.Metrics, m: P.Metrics, listing: seq<P.Stored>, first: P.Table,
                               stored: seq<Pattern>)
    requires m.suspectedSchedule && ReadFrom(stored, first)
    requires P.NightlyRun(P.DriftedTable(metrics), listing, [P.Drifted(m), P.NEWCOMER], [], P.TOL, 1, first)
    ensures Unscheduled(P.BAR.entity, stored)
  {
    hide P.NightlyRun;
    P.FirstNightCollides(metrics, m, listing, first);
    forall q | q in stored ensures !q.suspectedSchedule {
      var k :| k in first && q == AsRead(k, first[k]);
      assert k == P.BarKey(14);
    }
  }
}
