/** run_shadow_eval (src/pae/shadow/service.py): planning the missing days, one
    bulk fetch, day buckets, scoring — and what repeated runs leave in the table. */
module ShadowRuns {
  import opened Prelude
  import opened Circle
  import opened Schema
  import opened Shadow

  datatype Status = Shadowing | Approved | Rejected | Stale

  /** `created` is the local day; `automation` is None when the stored JSON no longer parses. */
  datatype Proposal = Proposal(id: nat, status: Status, created: int, isPair: bool, automation: Option<Automation>)

  datatype ResultRow = ResultRow(id: nat, day: int, score: DayScore)

  datatype Plan = Plan(proposal: Proposal, days: seq<int>)

  /** Everything a run reads besides the proposals and the stored results. */
  datatype World = World(history: seq<Event>, calendar: int -> Calendar, today: int, lookback: int, cfg: Config)

  predicate Live(p: Proposal) { p.status == Shadowing || p.status == Approved }

  function Max(a: int, b: int): int { if a < b then b else a }

  function Min(a: int, b: int): int { if a < b then a else b }

  function StartDay(p: Proposal, w: World): int { Max(p.created, w.today - w.lookback) }

  /** The days of [start, end) without a stored result. */
  function MissingDays(id: nat, start: int, end: int, existing: set<(nat, int)>): (days: seq<int>)
    ensures forall i :: 0 <= i < |days| ==> start <= days[i] < end
    ensures forall i, j :: 0 <= i < j < |days| ==> days[i] < days[j]
    decreases end - start
  {
    if start >= end then []
    else
      var rest := MissingDays(id, start + 1, end, existing);
      if (id, start) in existing then rest else [start] + rest
  }

  lemma {:induction false} MissingDaysAre(id: nat, start: int, end: int, existing: set<(nat, int)>, d: int)
    ensures d in MissingDays(id, start, end, existing) <==> start <= d < end && (id, d) !in existing
    decreases end - start
  {
    if start < end {
      MissingDaysAre(id, start + 1, end, existing, d);
    }
  }

  function NeededDays(p: Proposal, existing: set<(nat, int)>, w: World): seq<int> {
    MissingDays(p.id, StartDay(p, w), w.today, existing)
  }

  function Involved(a: Automation): set<string> {
    (if a.trigger.StateTrigger? then {a.trigger.entity} else {}) + set e | e in Targets(a.actions)
  }

  predicate Planned(p: Proposal, existing: set<(nat, int)>, w: World) {
    Live(p) && NeededDays(p, existing, w) != [] && p.automation.Some?
  }

  // ---------------------------------------------------------------- planning

  ghost function Plans(proposals: seq<Proposal>, existing: set<(nat, int)>, w: World): seq<Plan> {
    if proposals == [] then []
    else
      var p := proposals[|proposals| - 1];
      Plans(proposals[..|proposals| - 1], existing, w)
        + if Planned(p, existing, w) then [Plan(p, NeededDays(p, existing, w))] else []
  }

  /** The union of involved entities and the earliest needed day cover every plan. */
  ghost predicate Covers(plans: seq<Plan>, entities: set<string>, earliest: Option<int>) {
    && (earliest.None? <==> plans == [])
    && (plans != [] ==> entities != {})
    && forall i :: 0 <= i < |plans| ==>
         && plans[i].proposal.automation.Some?
         && Involved(plans[i].proposal.automation.value) <= entities
         && earliest.Some? && forall d :: d in plans[i].days ==> earliest.value <= d
  }

  ghost predicate WellParsed(proposals: seq<Proposal>) {
    forall i :: 0 <= i < |proposals| && proposals[i].automation.Some? ==> WellFormed(proposals[i].automation.value)
  }

  lemma InvolvedNotEmpty(a: Automation)
    requires WellFormed(a)
    ensures Involved(a) != {}
  {
    var e := a.actions[0].targets[0];
    TargetsAreReferenced(a.actions, 0, e);
    assert e in Involved(a);
  }

  method MakePlans(proposals: seq<Proposal>, existing: set<(nat, int)>, w: World)
    returns (plans: seq<Plan>, entities: set<string>, earliest: Option<int>)
    requires WellParsed(proposals)
    ensures plans == Plans(proposals, existing, w)
    ensures Covers(plans, entities, earliest)
  {
    hide Involved, MissingDays, WellFormed;
    plans, entities, earliest := [], {}, None;
    for i := 0 to |proposals|
      invariant plans == Plans(proposals[..i], existing, w)
      invariant Covers(plans, entities, earliest)
    {
      var p := proposals[i];
      assert proposals[..i + 1][..i] == proposals[..i];
      if Live(p) {
        var needed := NeededDays(p, existing, w);
        if needed != [] && p.automation.Some? {
          InvolvedNotEmpty(p.automation.value);
          entities := entities + Involved(p.automation.value);
          plans := plans + [Plan(p, needed)];
          var day0 := needed[0];
          earliest := Some(if earliest.None? then day0 else Min(earliest.value, day0));
          assert forall d :: d in needed ==> day0 <= d;
        }
      }
    }
    assert proposals[..|proposals|] == proposals;
  }

  // ---------------------------------------------------------------- bucketing

  /** by_day.get(day, []) */
  function Bucket(byDay: map<int, seq<Event>>, day: int): seq<Event> {
    if day in byDay then byDay[day] else []
  }

  ghost predicate Buckets(byDay: map<int, seq<Event>>, rows: seq<Event>) {
    forall d: int :: Bucket(byDay, d) == OnDay(rows, d)
  }

  method BucketByDay(rows: seq<Event>) returns (byDay: map<int, seq<Event>>)
    ensures Buckets(byDay, rows)
  {
    byDay := map[];
    for i := 0 to |rows|
      invariant Buckets(byDay, rows[..i])
    {
      var d := DayOf(rows[i]);
      ghost var before := byDay;
      assert rows[..i + 1] == rows[..i] + [rows[i]];
      byDay := byDay[d := Bucket(byDay, d) + [rows[i]]];
      forall d': int ensures Bucket(byDay, d') == OnDay(rows[..i + 1], d') {
        FilterSnoc((e: Event) => DayOf(e) == d', rows[..i], rows[i]);
        assert Bucket(before, d') == OnDay(rows[..i], d');
      }
    }
    assert rows[..|rows|] == rows;
  }

  /** _adjacent_events over the buckets. */
  function AdjacentOf(byDay: map<int, seq<Event>>, day: int, tolerance: int): seq<Event> {
    Filter((e: Event) => SecOfDay(e) >= DAY - tolerance, Bucket(byDay, day - 1))
      + Filter((e: Event) => SecOfDay(e) <= tolerance, Bucket(byDay, day + 1))
  }

  // ------------------------------------------------------------------ scoring

  /** What the pipeline of one proposal and day yields in this run. */
  ghost function Outcome(p: Proposal, day: int, w: World, entities: set<string>, earliest: int): Evaluation {
    if p.automation.None? then NotEvaluable
    else Pipeline(p.automation.value, p.isPair, day, w.calendar(day), w.history, entities, earliest, w.today, w.cfg)
  }

  ghost predicate RowIsScored(r: ResultRow, plans: seq<Plan>, w: World, entities: set<string>, earliest: int) {
    exists i :: 0 <= i < |plans| && plans[i].proposal.id == r.id && r.day in plans[i].days
                && Outcome(plans[i].proposal, r.day, w, entities, earliest) == Scored(r.score)
  }

  ghost predicate DayIsDone(rows: seq<ResultRow>, p: Proposal, day: int, w: World, entities: set<string>,
                            earliest: int) {
    match Outcome(p, day, w, entities, earliest)
    case Scored(score) => ResultRow(p.id, day, score) in rows
    case NotEvaluable => true
    case LookupFailed => false
  }

  ghost predicate RowsDistinct(rows: seq<ResultRow>) {
    forall i, j :: 0 <= i < j < |rows| ==> (rows[i].id, rows[i].day) != (rows[j].id, rows[j].day)
  }

  ghost predicate IdsDistinct(proposals: seq<Proposal>) {
    forall i, j :: 0 <= i < j < |proposals| ==> proposals[i].id != proposals[j].id
  }

  function KeysOf(rows: seq<ResultRow>): set<(nat, int)> {
    set i | 0 <= i < |rows| :: (rows[i].id, rows[i].day)
  }

  /** The rows hold exactly the scores of the days before position k that have one. */
  ghost predicate Holds(rows: seq<ResultRow>, plan: Plan, k: nat, w: World, entities: set<string>, earliest: int)
    requires k <= |plan.days|
  {
    && RowsDistinct(rows)
    && (forall r :: r in rows ==> HoldsRow(r, plan, k, w, entities, earliest))
    && (forall m :: 0 <= m < k ==> DayIsDone(rows, plan.proposal, plan.days[m], w, entities, earliest))
  }

  ghost predicate HoldsRow(r: ResultRow, plan: Plan, k: nat, w: World, entities: set<string>, earliest: int)
    requires k <= |plan.days|
  {
    && r.id == plan.proposal.id && r.day in plan.days[..k]
    && Outcome(plan.proposal, r.day, w, entities, earliest) == Scored(r.score)
  }

  lemma HoldOneMore(rows: seq<ResultRow>, plan: Plan, k: nat, w: World, entities: set<string>, earliest: int)
    requires k < |plan.days| && Holds(rows, plan, k, w, entities, earliest)
    requires forall m :: 0 <= m < k ==> plan.days[m] != plan.days[k]
    ensures var outcome := Outcome(plan.proposal, plan.days[k], w, entities, earliest);
            match outcome
            case Scored(score) => Holds(rows + [ResultRow(plan.proposal.id, plan.days[k], score)], plan, k + 1, w,
                entities, earliest)
            case NotEvaluable => Holds(rows, plan, k + 1, w, entities, earliest)
            case LookupFailed => true
  {
    hide Outcome;
    var d := plan.days[k];
    assert plan.days[..k + 1] == plan.days[..k] + [d];
    forall r | r in rows ensures r.day != d {
      var m :| 0 <= m < k && plan.days[..k][m] == r.day;
    }
    var outcome := Outcome(plan.proposal, d, w, entities, earliest);
    if outcome.Scored? {
      var row := ResultRow(plan.proposal.id, d, outcome.score);
      forall m | 0 <= m < k ensures DayIsDone(rows + [row], plan.proposal, plan.days[m], w, entities, earliest) {
        assert DayIsDone(rows, plan.proposal, plan.days[m], w, entities, earliest);
        MoreStaysDone(rows, row, plan.proposal, plan.days[m], w, entities, earliest);
      }
      assert row in rows + [row];
    }
  }

  lemma MoreStaysDone(rows: seq<ResultRow>, row: ResultRow, p: Proposal, day: int, w: World, entities: set<string>,
                      earliest: int)
    requires DayIsDone(rows, p, day, w, entities, earliest)
    ensures DayIsDone(rows + [row], p, day, w, entities, earliest)
  {
  }

  /** One day of one proposal, from the buckets. */
  method ScoreDay(p: Proposal, d: int, byDay: map<int, seq<Event>>, w: World, ghost entities: set<string>,
                  ghost earliest: int)
    returns (r: Evaluation)
    requires Buckets(byDay, Fetch(w.history, entities, earliest, w.today, w.cfg))
    ensures r == Outcome(p, d, w, entities, earliest)
  {
    hide Slots, Tally, FireSeconds, OnDay, Fetch;
    assert Bucket(byDay, d) == OnDay(Fetch(w.history, entities, earliest, w.today, w.cfg), d);
    assert Bucket(byDay, d - 1) == OnDay(Fetch(w.history, entities, earliest, w.today, w.cfg), d - 1);
    assert Bucket(byDay, d + 1) == OnDay(Fetch(w.history, entities, earliest, w.today, w.cfg), d + 1);
    r := EvaluateDay(p.automation, p.isPair, d, w.calendar(d), Bucket(byDay, d), AdjacentOf(byDay, d, w.cfg.tolerance),
        w.cfg);
  }

  lemma FailedLookup(p: Proposal, d: int, w: World, entities: set<string>, earliest: int)
    requires Outcome(p, d, w, entities, earliest).LookupFailed?
    ensures p.automation.Some? && Slots(p.automation.value.actions).None?
  {
    hide Slots, Tally, FireSeconds;
  }

  /** One proposal's missing days; None when a state lookup fails. */
  method ScorePlan(plan: Plan, byDay: map<int, seq<Event>>, w: World, ghost entities: set<string>, ghost earliest: int)
    returns (rows: Option<seq<ResultRow>>)
    requires Buckets(byDay, Fetch(w.history, entities, earliest, w.today, w.cfg))
    requires forall i, j :: 0 <= i < j < |plan.days| ==> plan.days[i] < plan.days[j]
    ensures rows.Some? ==> Holds(rows.value, plan, |plan.days|, w, entities, earliest)
    ensures rows.None? ==> plan.proposal.automation.Some? && Slots(plan.proposal.automation.value.actions).None?
  {
    hide Slots, Outcome, Holds, Buckets, Fetch;
    var out: seq<ResultRow> := [];
    NothingHeld(plan, w, entities, earliest);
    for k := 0 to |plan.days|
      invariant Holds(out, plan, k, w, entities, earliest)
    {
      var d := plan.days[k];
      HoldOneMore(out, plan, k, w, entities, earliest);
      var r := ScoreDay(plan.proposal, d, byDay, w, entities, earliest);
      if r.LookupFailed? {
        FailedLookup(plan.proposal, d, w, entities, earliest);
        return None;
      }
      if r.Scored? {
        out := out + [ResultRow(plan.proposal.id, d, r.score)];
      }
    }
    return Some(out);
  }

  lemma NothingHeld(plan: Plan, w: World, entities: set<string>, earliest: int)
    ensures Holds([], plan, 0, w, entities, earliest)
  {
  }

  /** What the finished rows say about one plan. */
  lemma HeldRows(rows: seq<ResultRow>, plan: Plan, w: World, entities: set<string>, earliest: int)
    requires Holds(rows, plan, |plan.days|, w, entities, earliest)
    ensures RowsDistinct(rows)
    ensures forall r :: r in rows ==>
              r.id == plan.proposal.id && r.day in plan.days
                  && Outcome(plan.proposal, r.day, w, entities, earliest) == Scored(r.score)
    ensures forall d :: d in plan.days ==> DayIsDone(rows, plan.proposal, d, w, entities, earliest)
  {
    hide Outcome, RowsDistinct, DayIsDone;
    assert plan.days[..|plan.days|] == plan.days;
  }

  ghost predicate PlanIsDone(rows: seq<ResultRow>, plan: Plan, w: World, entities: set<string>, earliest: Option<int>) {
    earliest.Some? && forall d :: d in plan.days ==> DayIsDone(rows, plan.proposal, d, w, entities, earliest.value)
  }

  ghost predicate ScoredWith(rows: seq<ResultRow>, plans: seq<Plan>, w: World, entities: set<string>,
                             earliest: Option<int>) {
    && Covers(plans, entities, earliest)
    && (forall r :: r in rows ==> earliest.Some? && RowIsScored(r, plans, w, entities, earliest.value))
    && (forall i :: 0 <= i < |plans| ==> PlanIsDone(rows, plans[i], w, entities, earliest))
  }

  /** What one run inserts: rows for missing days only, no day twice, each the score
      of its proposal and day, and none left out that could be scored. */
  ghost predicate RunInserts(rows: seq<ResultRow>, proposals: seq<Proposal>, existing: set<(nat, int)>, w: World) {
    && RowsDistinct(rows) && KeysOf(rows) !! existing
    && exists entities: set<string>, earliest: Option<int> ::
        ScoredWith(rows, Plans(proposals, existing, w), w, entities, earliest)
  }

  ghost predicate PlanFits(plan: Plan, proposals: seq<Proposal>, existing: set<(nat, int)>, w: World) {
    plan.proposal in proposals && Planned(plan.proposal, existing, w)
        && plan.days == NeededDays(plan.proposal, existing, w)
  }

  lemma {:induction false} PlansFit(proposals: seq<Proposal>, existing: set<(nat, int)>, w: World, plan: Plan)
    ensures plan in Plans(proposals, existing, w) <==> PlanFits(plan, proposals, existing, w)
  {
    if proposals != [] {
      var l := |proposals| - 1;
      PlansFit(proposals[..l], existing, w, plan);
      assert proposals == proposals[..l] + [proposals[l]];
    }
  }

  lemma {:induction false} PlanIdsDistinct(proposals: seq<Proposal>, existing: set<(nat, int)>, w: World)
    requires IdsDistinct(proposals)
    ensures var plans := Plans(proposals, existing, w);
            forall i, j :: 0 <= i < j < |plans| ==> plans[i].proposal.id != plans[j].proposal.id
  {
    if proposals != [] {
      var l := |proposals| - 1;
      PlanIdsDistinct(proposals[..l], existing, w);
      var front := Plans(proposals[..l], existing, w);
      forall i | 0 <= i < |front| ensures front[i].proposal.id != proposals[l].id {
        PlansFit(proposals[..l], existing, w, front[i]);
        var k :| 0 <= k < l && proposals[k] == front[i].proposal;
      }
    }
  }

  method RunShadowEval(proposals: seq<Proposal>, existing: set<(nat, int)>,
                       w: World) returns (rows: Option<seq<ResultRow>>)
    requires IdsDistinct(proposals) && WellParsed(proposals)
    ensures rows.Some? ==> RunInserts(rows.value, proposals, existing, w)
    ensures rows.None? ==>
        exists p :: p in proposals && Live(p) && p.automation.Some? && Slots(p.automation.value.actions).None?
  {
    hide Slots;
    var plans, entities, earliest := MakePlans(proposals, existing, w);
    PlanIdsDistinct(proposals, existing, w);
    if earliest.None? || entities == {} {
      assert ScoredWith([], plans, w, entities, earliest);
      return Some([]);
    }
    var byDay := BucketByDay(Fetch(w.history, entities, earliest.value, w.today, w.cfg));
    var out: seq<ResultRow> := [];
    for i := 0 to |plans|
      invariant RowsDistinct(out)
      invariant forall r :: r in out ==> FromPlans(r, plans, i) && RowIsScored(r, plans, w, entities, earliest.value)
      invariant forall k :: 0 <= k < i ==> PlanIsDone(out, plans[k], w, entities, earliest)
    {
      PlansFit(proposals, existing, w, plans[i]);
      var more := ScorePlan(plans[i], byDay, w, entities, earliest.value);
      if more.None? {
        return None;
      }
      HeldRows(more.value, plans[i], w, entities, earliest.value);
      JoinRows(out, more.value, plans, i, w, entities, earliest);
      out := out + more.value;
    }
    RowsAreMissing(out, proposals, existing, w, entities, earliest);
    return Some(out);
  }

  lemma RowsAreMissing(rows: seq<ResultRow>, proposals: seq<Proposal>, existing: set<(nat, int)>, w: World,
                       entities: set<string>, earliest: Option<int>)
    requires ScoredWith(rows, Plans(proposals, existing, w), w, entities, earliest)
    ensures KeysOf(rows) !! existing
  {
    hide Outcome;
    var plans := Plans(proposals, existing, w);
    forall i | 0 <= i < |rows| ensures (rows[i].id, rows[i].day) !in existing {
      var r := rows[i];
      assert r in rows;
      assert RowIsScored(r, plans, w, entities, earliest.value);
      var k :| 0 <= k < |plans| && plans[k].proposal.id == r.id && r.day in plans[k].days;
      PlansFit(proposals, existing, w, plans[k]);
      MissingDaysAre(r.id, StartDay(plans[k].proposal, w), w.today, existing, r.day);
    }
  }

  ghost predicate FromPlans(r: ResultRow, plans: seq<Plan>, n: nat)
    requires n <= |plans|
  {
    exists k :: 0 <= k < n && plans[k].proposal.id == r.id
  }

  lemma JoinRows(out: seq<ResultRow>, more: seq<ResultRow>, plans: seq<Plan>, n: nat, w: World, entities: set<string>,
                 earliest: Option<int>)
    requires n < |plans| && earliest.Some?
    requires forall i, j :: 0 <= i < j < |plans| ==> plans[i].proposal.id != plans[j].proposal.id
    requires RowsDistinct(out) && RowsDistinct(more)
    requires forall r :: r in out ==> FromPlans(r, plans, n) && RowIsScored(r, plans, w, entities, earliest.value)
    requires forall r :: r in more ==>
               r.id == plans[n].proposal.id && r.day in plans[n].days
                   && Outcome(plans[n].proposal, r.day, w, entities, earliest.value) == Scored(r.score)
    requires forall k :: 0 <= k < n ==> PlanIsDone(out, plans[k], w, entities, earliest)
    requires forall d :: d in plans[n].days ==> DayIsDone(more, plans[n].proposal, d, w, entities, earliest.value)
    ensures RowsDistinct(out + more)
    ensures forall r :: r in out + more ==>
        FromPlans(r, plans, n + 1) && RowIsScored(r, plans, w, entities, earliest.value)
    ensures forall k :: 0 <= k < n + 1 ==> PlanIsDone(out + more, plans[k], w, entities, earliest)
  {
    hide Outcome;
    forall i, j | 0 <= i < |out| && 0 <= j < |more| ensures out[i].id != more[j].id {
      assert out[i] in out && more[j] in more;
      assert FromPlans(out[i], plans, n);
    }
    forall k, d | 0 <= k < n && d in plans[k].days
      ensures DayIsDone(out + more, plans[k].proposal, d, w, entities, earliest.value) {
      assert PlanIsDone(out, plans[k], w, entities, earliest);
    }
    forall d | d in plans[n].days ensures DayIsDone(out + more, plans[n].proposal, d, w, entities, earliest.value) {
      assert DayIsDone(more, plans[n].proposal, d, w, entities, earliest.value);
    }
  }

  // ------------------------------------------------------------- many runs

  /** The result table after a history of runs, as the log of its rows. */
  datatype Night = Night(proposals: seq<Proposal>, w: World, rows: seq<ResultRow>)

  ghost predicate Nights(log: seq<ResultRow>, nights: seq<Night>)
    decreases |nights|
  {
    nights == [] ||
    (RunInserts(nights[0].rows, nights[0].proposals, KeysOf(log), nights[0].w)
        && Nights(log + nights[0].rows, nights[1..]))
  }

  function LogAfter(log: seq<ResultRow>, nights: seq<Night>): seq<ResultRow>
    decreases |nights|
  {
    if nights == [] then log else LogAfter(log + nights[0].rows, nights[1..])
  }

  /** Over any sequence of runs, no (proposal, day) is inserted twice. */
  lemma {:induction false} ScoredAtMostOnce(log: seq<ResultRow>, nights: seq<Night>)
    requires RowsDistinct(log) && Nights(log, nights)
    ensures RowsDistinct(LogAfter(log, nights))
    decreases |nights|
  {
    if nights != [] {
      var rows := nights[0].rows;
      forall i, j | 0 <= i < |log| && 0 <= j < |rows| ensures (log[i].id, log[i].day) != (rows[j].id, rows[j].day) {
        assert (log[i].id, log[i].day) in KeysOf(log) && (rows[j].id, rows[j].day) in KeysOf(rows);
      }
      ScoredAtMostOnce(log + rows, nights[1..]);
    }
  }

  /** After a run every day of each live proposal, from its creation and from the lookback on
      up to yesterday, has a stored score, unless the sun its trigger needs does not say. */
  lemma EveryDayIsScored(rows: seq<ResultRow>, proposals: seq<Proposal>, existing: set<(nat, int)>, w: World,
                         p: Proposal, day: int)
    requires RunInserts(rows, proposals, existing, w)
    requires p in proposals && p.status in {Shadowing, Approved} && p.automation.Some?
    requires p.created <= day && w.today - w.lookback <= day < w.today
    ensures (p.id, day) in existing + KeysOf(rows)
         || (p.automation.value.trigger.SunTrigger? && w.calendar(day).sun.None?)
  {
    hide Slots, Tally, Outcome;
    if (p.id, day) !in existing {
      var plans, plan := Plans(proposals, existing, w), Plan(p, NeededDays(p, existing, w));
      MissingDaysAre(p.id, StartDay(p, w), w.today, existing, day);
      PlansFit(proposals, existing, w, plan);
      var k :| 0 <= k < |plans| && plans[k] == plan;
      var entities: set<string>, earliest: Option<int> :| ScoredWith(rows, plans, w, entities, earliest);
      assert PlanIsDone(rows, plans[k], w, entities, earliest);
      DoneMeansStored(rows, p, day, w, entities, earliest.value);
    }
  }

  lemma DoneMeansStored(rows: seq<ResultRow>, p: Proposal, day: int, w: World, entities: set<string>, earliest: int)
    requires p.automation.Some? && DayIsDone(rows, p, day, w, entities, earliest)
    ensures (p.id, day) in KeysOf(rows)
         || (p.automation.value.trigger.SunTrigger? && w.calendar(day).sun.None?)
  {
  }

  /** An inserted row is the outcome of a shadowing or approved proposal, on a past day of
      its life within the lookback that had no row yet. */
  lemma RowOrigin(rows: seq<ResultRow>, proposals: seq<Proposal>, existing: set<(nat, int)>, w: World, r: ResultRow)
    returns (p: Proposal, entities: set<string>, earliest: int)
    requires RunInserts(rows, proposals, existing, w) && r in rows
    ensures p in proposals && p.id == r.id && p.status in {Shadowing, Approved} && p.automation.Some?
    ensures p.created <= r.day && w.today - w.lookback <= r.day < w.today && (r.id, r.day) !in existing
    ensures Involved(p.automation.value) <= entities && earliest <= r.day
    ensures Outcome(p, r.day, w, entities, earliest) == Scored(r.score)
  {
    hide Outcome;
    var plans := Plans(proposals, existing, w);
    var involved: set<string>, first: Option<int> :| ScoredWith(rows, plans, w, involved, first);
    assert RowIsScored(r, plans, w, involved, first.value);
    var i :| 0 <= i < |plans| && plans[i].proposal.id == r.id && r.day in plans[i].days
             && Outcome(plans[i].proposal, r.day, w, involved, first.value) == Scored(r.score);
    PlansFit(proposals, existing, w, plans[i]);
    p, entities, earliest := plans[i].proposal, involved, first.value;
    MissingDaysAre(p.id, StartDay(p, w), w.today, existing, r.day);
  }

  /** A stored score of a pair proposal is the score over the whole event history. */
  lemma PairRowsAreExact(rows: seq<ResultRow>, proposals: seq<Proposal>, existing: set<(nat, int)>, w: World,
                         r: ResultRow)
    requires IdsDistinct(proposals) && RunInserts(rows, proposals, existing, w) && r in rows
    requires w.cfg.pairWindow <= w.cfg.tolerance && w.cfg.pairWindow <= DAY && w.cfg.tolerance >= 0
    ensures exists p :: p in proposals && p.id == r.id && Live(p) && p.automation.Some?
              && (p.isPair && p.automation.value.trigger.StateTrigger? ==>
                    PairScore(p.automation.value, r.day, w.history, w.cfg) == Scored(r.score))
  {
    hide Outcome, PairScore;
    var p, entities, earliest := RowOrigin(rows, proposals, existing, w, r);
    if p.isPair && p.automation.value.trigger.StateTrigger? {
      PairOutcome(p, r.day, w, entities, earliest);
    }
  }

  /** The day's fires, if it has any, are clear of both midnights. */
  ghost predicate FiresClear(a: Automation, day: int, w: World)
    requires !a.trigger.StateTrigger?
  {
    var fires := DueSeconds(a.trigger, a.conditions, w.calendar(day));
    fires.Some? ==> AllClear(fires.value, day, w.today, w.cfg.tolerance)
  }

  /** A stored score of a time- or sun-triggered proposal is the real-time score, on every
      day whose fire is clear of both midnights. */
  lemma ClockRowsAreExact(rows: seq<ResultRow>, proposals: seq<Proposal>, existing: set<(nat, int)>, w: World,
                          r: ResultRow)
    requires IdsDistinct(proposals) && RunInserts(rows, proposals, existing, w) && r in rows && w.cfg.tolerance >= 0
    ensures exists p :: p in proposals && p.id == r.id && Live(p) && p.automation.Some?
              && (!p.isPair && !p.automation.value.trigger.StateTrigger? && FiresClear(p.automation.value, r.day, w) ==>
                    ClockScore(p.automation.value, r.day, w.calendar(r.day), w.history, w.cfg) == Scored(r.score))
  {
    hide Outcome, ClockScore, FiresClear;
    var p, entities, earliest := RowOrigin(rows, proposals, existing, w, r);
    if !p.isPair && !p.automation.value.trigger.StateTrigger? && FiresClear(p.automation.value, r.day, w) {
      ClockOutcome(p, r.day, w, entities, earliest);
    }
  }

  lemma ClockOutcome(p: Proposal, day: int, w: World, entities: set<string>, earliest: int)
    requires !p.isPair && p.automation.Some? && !p.automation.value.trigger.StateTrigger?
    requires Involved(p.automation.value) <= entities && earliest <= day < w.today && w.cfg.tolerance >= 0
    requires FiresClear(p.automation.value, day, w)
    ensures Outcome(p, day, w, entities, earliest)
         == ClockScore(p.automation.value, day, w.calendar(day), w.history, w.cfg)
  {
    hide Pipeline, ClockScore, DueSeconds;
    var a := p.automation.value;
    if Slots(a.actions).Some? {
      SlotsAreInvolved(a, entities);
    }
    ClockScoreIsExact(a, day, w.calendar(day), w.history, entities, earliest, w.today, w.cfg);
  }

  lemma PairOutcome(p: Proposal, day: int, w: World, entities: set<string>, earliest: int)
    requires p.isPair && p.automation.Some? && p.automation.value.trigger.StateTrigger?
    requires Involved(p.automation.value) <= entities && earliest <= day < w.today
    requires w.cfg.pairWindow <= w.cfg.tolerance && w.cfg.pairWindow <= DAY && w.cfg.tolerance >= 0
    ensures Outcome(p, day, w, entities, earliest) == PairScore(p.automation.value, day, w.history, w.cfg)
  {
    hide Pipeline, PairScore;
    var a := p.automation.value;
    if Slots(a.actions).Some? {
      SlotsAreInvolved(a, entities);
    }
    PairScoreIsExact(a, day, w.calendar(day), w.history, entities, earliest, w.today, w.cfg);
  }

  lemma SlotsAreInvolved(a: Automation, entities: set<string>)
    requires Involved(a) <= entities && Slots(a.actions).Some?
    ensures Involves(entities, Slots(a.actions).value)
  {
    SlotEntities(a.actions);
    var slots := Slots(a.actions).value;
    forall i | 0 <= i < |slots| ensures slots[i].entity in entities {
      assert slots[i].entity in Targets(a.actions);
    }
  }

  lemma {:induction false} SlotEntities(actions: seq<Action>)
    requires Slots(actions).Some?
    ensures forall i :: 0 <= i < |Slots(actions).value| ==> Slots(actions).value[i].entity in Targets(actions)
    decreases |actions|
  {
    hide ExpectedState;
    if actions != [] {
      var l := |actions| - 1;
      SlotEntities(actions[..l]);
      var slots, front := Slots(actions).value, Slots(actions[..l]).value;
      assert actions == actions[..l] + [actions[l]];
      forall i | 0 <= i < |slots| ensures slots[i].entity in Targets(actions) {
        if i < |front| {
          TargetsGrow(actions[..l], actions[l], slots[i].entity);
        } else {
          TargetsAreReferenced(actions, l, slots[i].entity);
        }
      }
    }
  }

  lemma {:induction false} TargetsGrow(actions: seq<Action>, last: Action, e: string)
    requires e in Targets(actions)
    ensures e in Targets(actions + [last])
  {
    assert (actions + [last])[1..] == actions[1..] + [last];
    if e !in actions[0].targets {
      TargetsGrow(actions[1..], last, e);
    }
  }
}
