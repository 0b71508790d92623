/** Bounds on the shadow score (src/pae/shadow/service.py): precision, and exactly when
    coverage, matches over human events, stays at most one. */
module Coverage {
  import opened Prelude
  import opened Circle
  import opened Schema
  import opened Shadow

  /** 0 <= human_matches <= expected_fires = fires x slots. */
  lemma {:induction false} PrecisionAtMostOne(isPair: bool, slots: seq<Slot>, day: int, fires: seq<int>,
                                              dayEvents: seq<Event>, adjacent: seq<Event>, cfg: Config)
    ensures var s := Tally(isPair, slots, day, fires, dayEvents, adjacent, cfg);
            s.humanMatches <= s.expectedFires == |fires| * |slots|
  {
    hide MatchCandidates, Human, CountMatched;
    if slots != [] {
      var l := |slots| - 1;
      PrecisionAtMostOne(isPair, slots[..l], day, fires, dayEvents, adjacent, cfg);
      OneMore(|fires|, l);
      MatchedAtMostFires(isPair, fires, MatchCandidates(slots[l], day, dayEvents, adjacent), cfg);
    }
  }

  lemma OneMore(n: nat, l: nat)
    ensures n * (l + 1) == n * l + n
  {
  }

  lemma MatchedAtMostFires(isPair: bool, fires: seq<int>, candidates: seq<int>, cfg: Config)
    ensures CountMatched(isPair, fires, candidates, cfg) <= |fires|
  {
    FilterAtMost((m: int) => MatchedBy(isPair, candidates, m, cfg), fires);
  }

  /** No candidate lies in the windows of two fires. */
  ghost predicate FiresApart(isPair: bool, fires: seq<int>, cfg: Config) {
    if isPair then forall i, j :: 0 <= i < j < |fires| ==> Abs(fires[i] - fires[j]) > cfg.pairWindow
    else |fires| <= 1
  }

  ghost function FirstMatch(isPair: bool, candidates: seq<int>, fire: int, cfg: Config): nat {
    if MatchedBy(isPair, candidates, fire, cfg) then
      var k: nat :| k < |candidates| && InWindow(isPair, candidates[k], fire, cfg); k
    else 0
  }

  lemma FirstMatchMatches(isPair: bool, candidates: seq<int>, fire: int, cfg: Config)
    requires MatchedBy(isPair, candidates, fire, cfg)
    ensures var k := FirstMatch(isPair, candidates, fire, cfg);
            k < |candidates| && InWindow(isPair, candidates[k], fire, cfg)
  {
  }

  lemma WindowsDisjoint(isPair: bool, fires: seq<int>, i: nat, j: nat, x: int, cfg: Config)
    requires FiresApart(isPair, fires, cfg) && i < |fires| && j < |fires|
    requires InWindow(isPair, x, fires[i], cfg) && InWindow(isPair, x, fires[j], cfg)
    ensures i == j
  {
  }

  /** Pigeonhole: fires that do not share candidates are matched at most once each. */
  lemma MatchesAtMostCandidates(isPair: bool, fires: seq<int>, candidates: seq<int>, cfg: Config)
    requires FiresApart(isPair, fires, cfg)
    ensures CountMatched(isPair, fires, candidates, cfg) <= |candidates|
  {
    var matched := (m: int) => MatchedBy(isPair, candidates, m, cfg);
    FilterSize(matched, fires);
    var hit := Picked(matched, fires);
    var where := (i: nat) => if i < |fires| then FirstMatch(isPair, candidates, fires[i], cfg) else 0;
    var used: set<nat> := set i | i in hit :: where(i);
    hide FiresApart, FirstMatch, MatchedBy;
    forall i | i in hit ensures where(i) < |candidates| && InWindow(isPair, candidates[where(i)], fires[i], cfg) {
      FirstMatchMatches(isPair, candidates, fires[i], cfg);
    }
    forall i, j | i in hit && j in hit && where(i) == where(j) ensures i == j {
      WindowsDisjoint(isPair, fires, i, j, candidates[where(i)], cfg);
    }
    ImageSize<nat, nat>(hit, used, where);
    IndexesBelow(used, |candidates|);
  }

  lemma {:induction false} IndexesBelow(s: set<nat>, n: nat)
    requires forall i :: i in s ==> i < n
    ensures |s| <= n
  {
    if n > 0 {
      IndexesBelow(s - {n - 1}, n - 1);
    } else {
      assert s == {};
    }
  }

  /** Some fire's window holds the reading x. */
  ghost predicate InSomeWindow(isPair: bool, x: int, fires: seq<int>, cfg: Config) {
    exists i :: 0 <= i < |fires| && InWindow(isPair, x, fires[i], cfg)
  }

  /** Human events of the neighbouring days that some fire's window reaches. */
  ghost function ReachedHumans(isPair: bool, slot: Slot, day: int, fires: seq<int>, adjacent: seq<Event>,
                               cfg: Config): seq<Event> {
    Filter((e: Event) => InSomeWindow(isPair, RelativeSecond(e, day), fires, cfg), Human(adjacent, slot))
  }

  ghost function ReachedTotal(isPair: bool, slots: seq<Slot>, day: int, fires: seq<int>, adjacent: seq<Event>,
                              cfg: Config): nat {
    if slots == [] then 0
    else ReachedTotal(isPair, slots[..|slots| - 1], day, fires, adjacent, cfg)
         + |ReachedHumans(isPair, slots[|slots| - 1], day, fires, adjacent, cfg)|
  }

  lemma MatchedByEither(isPair: bool, xs: seq<int>, ys: seq<int>, fire: int, cfg: Config)
    ensures MatchedBy(isPair, xs + ys, fire, cfg)
        <==> MatchedBy(isPair, xs, fire, cfg) || MatchedBy(isPair, ys, fire, cfg)
  {
    if k :| 0 <= k < |xs| && InWindow(isPair, xs[k], fire, cfg) {
      assert InWindow(isPair, (xs + ys)[k], fire, cfg);
    }
    if k :| 0 <= k < |ys| && InWindow(isPair, ys[k], fire, cfg) {
      assert InWindow(isPair, (xs + ys)[|xs| + k], fire, cfg);
    }
  }

  lemma MatchedByMapped(isPair: bool, events: seq<Event>, day: int, fire: int, cfg: Config)
    ensures MatchedBy(isPair, Map((e: Event) => RelativeSecond(e, day), events), fire, cfg)
       <==> exists e :: e in events && InWindow(isPair, RelativeSecond(e, day), fire, cfg)
  {
    var shift := (e: Event) => RelativeSecond(e, day);
    var xs := Map(shift, events);
    if MatchedBy(isPair, xs, fire, cfg) {
      var k :| 0 <= k < |xs| && InWindow(isPair, xs[k], fire, cfg);
      assert xs[k] == shift(events[k]);
    }
    if e :| e in events && InWindow(isPair, RelativeSecond(e, day), fire, cfg) {
      var k :| 0 <= k < |events| && events[k] == e;
      assert xs[k] == shift(events[k]);
    }
  }

  /** Only the reached neighbours matter to a fire of the list. */
  lemma ReachedDecide(isPair: bool, slot: Slot, day: int, fires: seq<int>, i: nat, dayEvents: seq<Event>,
                      adjacent: seq<Event>, cfg: Config)
    requires i < |fires|
    ensures MatchedBy(isPair, MatchCandidates(slot, day, dayEvents, adjacent), fires[i], cfg)
       <==> MatchedBy(isPair, Map((e: Event) => RelativeSecond(e, day), Human(dayEvents, slot))
                              + Map((e: Event) => RelativeSecond(e, day),
                                    ReachedHumans(isPair, slot, day, fires, adjacent, cfg)), fires[i], cfg)
  {
    hide MatchedBy, InWindow, Human;
    var shift := (e: Event) => RelativeSecond(e, day);
    var reached := ReachedHumans(isPair, slot, day, fires, adjacent, cfg);
    MatchedByEither(isPair, Map(shift, Human(dayEvents, slot)), Map(shift, Human(adjacent, slot)), fires[i], cfg);
    MatchedByEither(isPair, Map(shift, Human(dayEvents, slot)), Map(shift, reached), fires[i], cfg);
    MatchedByMapped(isPair, Human(adjacent, slot), day, fires[i], cfg);
    MatchedByMapped(isPair, reached, day, fires[i], cfg);
    forall e
      ensures e in reached <==> e in Human(adjacent, slot) && InSomeWindow(isPair, RelativeSecond(e, day), fires, cfg)
    {
      FilterMembers((x: Event) => InSomeWindow(isPair, RelativeSecond(x, day), fires, cfg), Human(adjacent, slot), e);
    }
  }

  lemma SlotCoverage(isPair: bool, slot: Slot, day: int, fires: seq<int>, dayEvents: seq<Event>, adjacent: seq<Event>,
                     cfg: Config)
    requires FiresApart(isPair, fires, cfg)
    ensures CountMatched(isPair, fires, MatchCandidates(slot, day, dayEvents, adjacent), cfg)
         <= |Human(dayEvents, slot)| + |ReachedHumans(isPair, slot, day, fires, adjacent, cfg)|
  {
    hide MatchedBy, FiresApart, Human, ReachedHumans, MatchCandidates;
    var shift := (e: Event) => RelativeSecond(e, day);
    var all := MatchCandidates(slot, day, dayEvents, adjacent);
    var near := Map(shift, Human(dayEvents, slot)) + Map(shift, ReachedHumans(isPair, slot, day, fires, adjacent, cfg));
    forall m | m in fires ensures MatchedBy(isPair, all, m, cfg) <==> MatchedBy(isPair, near, m, cfg) {
      var i: nat :| i < |fires| && fires[i] == m;
      ReachedDecide(isPair, slot, day, fires, i, dayEvents, adjacent, cfg);
    }
    FilterSame((m: int) => MatchedBy(isPair, all, m, cfg), (m: int) => MatchedBy(isPair, near, m, cfg), fires);
    MatchesAtMostCandidates(isPair, fires, near, cfg);
  }

  /** Coverage can exceed 1 only by neighbouring days' human events inside some fire's
      window: when no event can match two fires, human_matches <= human_total + those. */
  lemma {:induction false} CoverageBound(isPair: bool, slots: seq<Slot>, day: int, fires: seq<int>,
                                         dayEvents: seq<Event>, adjacent: seq<Event>, cfg: Config)
    requires FiresApart(isPair, fires, cfg)
    ensures var s := Tally(isPair, slots, day, fires, dayEvents, adjacent, cfg);
            s.humanMatches <= s.humanTotal + ReachedTotal(isPair, slots, day, fires, adjacent, cfg)
  {
    hide FiresApart, CountMatched, Human, ReachedHumans, MatchCandidates;
    if slots != [] {
      var l := |slots| - 1;
      CoverageBound(isPair, slots[..l], day, fires, dayEvents, adjacent, cfg);
      SlotCoverage(isPair, slots[l], day, fires, dayEvents, adjacent, cfg);
    }
  }

  // ---------------------------------------- exactly when coverage is at most one

  /** Fires share no event, and no event fetched for a neighbouring day lies in a window: a
      pair's windows end before midnight, a clock's fire stays clear of both midnights. */
  ghost predicate CoverageSafe(isPair: bool, fires: seq<int>, day: int, today: int, cfg: Config) {
    && FiresApart(isPair, fires, cfg)
    && forall i :: 0 <= i < |fires| ==> KeepsToItsDay(isPair, fires[i], day, today, cfg)
  }

  /** Without a tolerance, nothing after the last scored day is fetched. */
  predicate KeepsToItsDay(isPair: bool, fire: int, day: int, today: int, cfg: Config) {
    if isPair then fire + cfg.pairWindow < DAY || (cfg.tolerance == 0 && day + 1 == today)
    else ClearOfMidnight(fire % DAY, day, today, cfg.tolerance)
  }

  predicate WithinOne(r: Evaluation) { r.Scored? ==> r.score.humanMatches <= r.score.humanTotal }

  /** The automation fires on `day` at these seconds, if this is what happened. */
  predicate FiresAt(a: Automation, fires: seq<int>, history: seq<Event>, day: int, calendar: Calendar,
                    entities: set<string>, earliest: int, today: int, cfg: Config) {
    FireSeconds(a.trigger, a.conditions, calendar, OnDay(Fetch(history, entities, earliest, today, cfg), day))
      == Some(fires)
  }

  /** Whatever else happened on a day with these fires, its score keeps the bound. */
  ghost predicate CoverageAtMostOne(a: Automation, fires: seq<int>, day: int, calendar: Calendar,
                                    entities: set<string>, earliest: int, today: int, cfg: Config) {
    forall history: seq<Event> | FiresAt(a, fires, history, day, calendar, entities, earliest, today, cfg) ::
      WithinOne(Pipeline(a, a.trigger.StateTrigger?, day, calendar, history, entities, earliest, today, cfg))
  }

  lemma DistWraps(x: int, fire: int)
    ensures Dist(x, fire) == Dist(x, fire % DAY)
  {
    var q := fire / DAY;
    assert x - fire % DAY == x - fire + q * DAY;
    ModShift(x - fire, q);
  }

  /** A neighbouring event's reading, outside the day, is in no window of a safe fire. */
  lemma NeighbourUnreached(isPair: bool, x: int, fire: int, day: int, today: int, cfg: Config)
    requires cfg.tolerance >= 0 && (isPair ==> 0 <= fire) && KeepsToItsDay(isPair, fire, day, today, cfg)
    requires Reaches(x, day, today, cfg.tolerance) && !(0 <= x < DAY) && day < today
    ensures !InWindow(isPair, x, fire, cfg)
  {
    if !isPair {
      DistWraps(x, fire);
      var g := fire % DAY;
      DistIsLeast(x, g, 0);
      var n: int :| Dist(x, g) == Abs(x - g + n * DAY);
      assert n <= -1 || n == 0 || n >= 1;
    }
  }

  /** A fetched event of a neighbouring day's tail or head is in reach of the day. */
  lemma NeighbourReaches(e: Event, history: seq<Event>, entities: set<string>, earliest: int, today: int, day: int,
                         cfg: Config)
    requires earliest <= day < today && cfg.tolerance >= 0
    requires e in Adjacent(Fetch(history, entities, earliest, today, cfg), day, cfg.tolerance)
    ensures RelativeSecond(e, day) == Offset(e, day) && Reaches(Offset(e, day), day, today, cfg.tolerance)
    ensures !(0 <= Offset(e, day) < DAY)
  {
    AdjacentMembers(e, Fetch(history, entities, earliest, today, cfg), day, cfg.tolerance);
    FilterMembers((x: Event) => Fetches(x, entities, earliest, today, cfg), history, e);
    OffsetOfDay(e, day);
    RelativeIsOffset(e, day);
    SecondBounds(e, earliest * DAY - cfg.tolerance, today * DAY + cfg.tolerance);
  }

  lemma SafeMeansNoneReached(isPair: bool, slot: Slot, day: int, fires: seq<int>, history: seq<Event>,
                             entities: set<string>, earliest: int, today: int, cfg: Config)
    requires cfg.tolerance >= 0 && earliest <= day < today && CoverageSafe(isPair, fires, day, today, cfg)
    requires isPair ==> forall i :: 0 <= i < |fires| ==> 0 <= fires[i]
    ensures var adjacent := Adjacent(Fetch(history, entities, earliest, today, cfg), day, cfg.tolerance);
            ReachedHumans(isPair, slot, day, fires, adjacent, cfg) == []
  {
    hide Reaches, KeepsToItsDay, Fetch, Adjacent, InWindow;
    var adjacent := Adjacent(Fetch(history, entities, earliest, today, cfg), day, cfg.tolerance);
    forall e | e in Human(adjacent, slot) ensures !InSomeWindow(isPair, RelativeSecond(e, day), fires, cfg) {
      FilterMembers((x: Event) => IsHuman(x, slot), adjacent, e);
      NeighbourReaches(e, history, entities, earliest, today, day, cfg);
      forall i | 0 <= i < |fires| ensures !InWindow(isPair, RelativeSecond(e, day), fires[i], cfg) {
        NeighbourUnreached(isPair, RelativeSecond(e, day), fires[i], day, today, cfg);
      }
    }
    NothingPicked((e: Event) => InSomeWindow(isPair, RelativeSecond(e, day), fires, cfg), Human(adjacent, slot));
  }

  lemma {:induction false} SafeTally(isPair: bool, slots: seq<Slot>, day: int, fires: seq<int>, history: seq<Event>,
                                     entities: set<string>, earliest: int, today: int, cfg: Config)
    requires cfg.tolerance >= 0 && earliest <= day < today && CoverageSafe(isPair, fires, day, today, cfg)
    requires isPair ==> forall i :: 0 <= i < |fires| ==> 0 <= fires[i]
    ensures var adjacent := Adjacent(Fetch(history, entities, earliest, today, cfg), day, cfg.tolerance);
            ReachedTotal(isPair, slots, day, fires, adjacent, cfg) == 0
    decreases |slots|
  {
    hide CoverageSafe, ReachedHumans;
    if slots != [] {
      SafeTally(isPair, slots[..|slots| - 1], day, fires, history, entities, earliest, today, cfg);
      SafeMeansNoneReached(isPair, slots[|slots| - 1], day, fires, history, entities, earliest, today, cfg);
    }
  }

  // ------------------------------------------------------ one telling event

  /** The rows a single event leaves in the day and beside it. */
  lemma OneRow(slot: Slot, other: Slot, day: int, offset: int, cfg: Config)
    requires -DAY <= offset < 2 * DAY && 0 <= offset + cfg.tolerance && offset <= DAY + cfg.tolerance
    ensures var e := HumanAt(slot, day, offset);
            var dayEvents, adjacent := OnDay([e], day), Adjacent([e], day, cfg.tolerance);
            && Human(dayEvents, other) == (if other == slot && 0 <= offset < DAY then [e] else [])
            && Human(adjacent, other) == (if other == slot && !(0 <= offset < DAY) then [e] else [])
  {
    var e := HumanAt(slot, day, offset);
    HumanAtOffset(slot, day, offset);
    OffsetOfDay(e, day);
    OnDayOne(e, day);
    AdjacentOne(e, day, cfg.tolerance);
    FilterOne((x: Event) => IsHuman(x, other), e);
  }

  lemma OnDayOne(e: Event, day: int)
    ensures OnDay([e], day) == if DayOf(e) == day then [e] else []
  {
    FilterOne((x: Event) => DayOf(x) == day, e);
  }

  lemma AdjacentOne(e: Event, day: int, tolerance: int)
    ensures Adjacent([e], day, tolerance) == if InTail(e, day, tolerance) || InHead(e, day, tolerance) then [e] else []
  {
    OnDayOne(e, day - 1);
    OnDayOne(e, day + 1);
    FilterOne((x: Event) => SecOfDay(x) >= DAY - tolerance, e);
    FilterOne((x: Event) => SecOfDay(x) <= tolerance, e);
  }

  lemma OneCandidate(slot: Slot, other: Slot, day: int, offset: int, cfg: Config)
    requires -DAY <= offset < 2 * DAY && 0 <= offset + cfg.tolerance && offset <= DAY + cfg.tolerance
    ensures var e := HumanAt(slot, day, offset);
            MatchCandidates(other, day, OnDay([e], day), Adjacent([e], day, cfg.tolerance))
              == if other == slot then [offset] else []
  {
    var e := HumanAt(slot, day, offset);
    OneRow(slot, other, day, offset, cfg);
    HumanAtOffset(slot, day, offset);
    OffsetOfDay(e, day);
    RelativeIsOffset(e, day);
    var shift := (x: Event) => RelativeSecond(x, day);
    assert [e][1..] == [] && Map(shift, [e]) == [offset];
  }

  /** Matches of one event against its own slot. */
  ghost function Hits(isPair: bool, offset: int, fires: seq<int>, cfg: Config): nat {
    |Filter((m: int) => InWindow(isPair, offset, m, cfg), fires)|
  }

  lemma OneEventHits(isPair: bool, offset: int, fires: seq<int>, cfg: Config)
    ensures CountMatched(isPair, fires, [offset], cfg) == Hits(isPair, offset, fires, cfg)
    ensures CountMatched(isPair, fires, [], cfg) == 0
  {
    forall m | m in fires ensures MatchedBy(isPair, [offset], m, cfg) <==> InWindow(isPair, offset, m, cfg) {
      assert [offset][0] == offset;
    }
    FilterSame((m: int) => MatchedBy(isPair, [offset], m, cfg), (m: int) => InWindow(isPair, offset, m, cfg), fires);
    NothingPicked((m: int) => MatchedBy(isPair, [], m, cfg), fires);
  }

  /** An event that matches more fires than it counts for pushes coverage above one. */
  lemma {:induction false} OneEventTally(isPair: bool, slots: seq<Slot>, slot: Slot, day: int, offset: int,
                                         fires: seq<int>, cfg: Config)
    requires -DAY <= offset < 2 * DAY && 0 <= offset + cfg.tolerance && offset <= DAY + cfg.tolerance
    requires Hits(isPair, offset, fires, cfg) > if 0 <= offset < DAY then 1 else 0
    ensures var e := HumanAt(slot, day, offset);
            var s := Tally(isPair, slots, day, fires, OnDay([e], day), Adjacent([e], day, cfg.tolerance), cfg);
            s.humanMatches >= s.humanTotal && (slot in slots ==> s.humanMatches > s.humanTotal)
  {
    hide Hits, CountMatched, OnDay, Adjacent, Human, MatchCandidates;
    if slots != [] {
      var l := |slots| - 1;
      OneEventTally(isPair, slots[..l], slot, day, offset, fires, cfg);
      OneRow(slot, slots[l], day, offset, cfg);
      OneCandidate(slot, slots[l], day, offset, cfg);
      OneEventHits(isPair, offset, fires, cfg);
      assert slots == slots[..l] + [slots[l]];
    }
  }

  /** An event two fires match, at the second of fire k; or a neighbouring one that a fire
      matches. */
  lemma TellingEvent(isPair: bool, fires: seq<int>, day: int, today: int, cfg: Config) returns (offset: int, k: nat)
    requires cfg.tolerance >= 0 && day < today && !CoverageSafe(isPair, fires, day, today, cfg)
    requires if isPair then forall i :: 0 <= i < |fires| ==> 0 <= fires[i] < DAY else |fires| <= 1
    ensures Reaches(offset, day, today, cfg.tolerance)
    ensures 0 <= offset < DAY ==> k < |fires| && fires[k] == offset
    ensures Hits(isPair, offset, fires, cfg) > if 0 <= offset < DAY then 1 else 0
  {
    if i :| 0 <= i < |fires| && !KeepsToItsDay(isPair, fires[i], day, today, cfg) {
      offset := StrayReading(isPair, fires[i], day, today, cfg);
      k := 0;
      HitsAtLeast(isPair, offset, fires, {i}, cfg);
    } else {
      var i, j :| 0 <= i < j < |fires| && Abs(fires[i] - fires[j]) <= cfg.pairWindow;
      k := if fires[i] < fires[j] then j else i;
      offset := fires[k];
      HitsAtLeast(isPair, offset, fires, {i, j}, cfg);
    }
  }

  lemma StrayReading(isPair: bool, fire: int, day: int, today: int, cfg: Config) returns (offset: int)
    requires cfg.tolerance >= 0 && day < today && !KeepsToItsDay(isPair, fire, day, today, cfg)
    requires isPair ==> 0 <= fire < DAY
    ensures !(0 <= offset < DAY) && Reaches(offset, day, today, cfg.tolerance) && InWindow(isPair, offset, fire, cfg)
  {
    if isPair {
      offset := DAY;
    } else {
      var t, g := cfg.tolerance, fire % DAY;
      offset := if g < t then DAY else if g <= 2 * t && (day + 1 < today || g < 2 * t) then DAY + g - t
                else if g + t >= DAY then -1 else g + t - DAY;
      DistWraps(offset, fire);
      DistFromOffset(offset, g, if offset >= DAY then -1 else 1, t);
    }
  }

  lemma HitsAtLeast(isPair: bool, offset: int, fires: seq<int>, hit: set<nat>, cfg: Config)
    requires forall i :: i in hit ==> i < |fires| && InWindow(isPair, offset, fires[i], cfg)
    ensures Hits(isPair, offset, fires, cfg) >= |hit|
  {
    var p := (m: int) => InWindow(isPair, offset, m, cfg);
    FilterSize(p, fires);
    SubsetSize(hit, Picked(p, fires));
  }

  // ------------------------------------------- a day with the fires and the event

  /** The trigger's state change at second f of the day, by some automation. */
  function TriggerAt(t: Trigger, day: int, f: int): Event
    requires t.StateTrigger?
  {
    Event((day * DAY + f) * MICRO, t.entity, t.to, "automation")
  }

  function TriggersAt(t: Trigger, day: int, fires: seq<int>): (es: seq<Event>)
    requires t.StateTrigger?
    ensures |es| == |fires| && forall i :: 0 <= i < |es| ==> es[i] == TriggerAt(t, day, fires[i])
  {
    seq(|fires|, i requires 0 <= i < |fires| => TriggerAt(t, day, fires[i]))
  }

  lemma TriggerOnDay(t: Trigger, day: int, f: int)
    requires t.StateTrigger? && 0 <= f < DAY
    ensures var e := TriggerAt(t, day, f);
            DayOf(e) == day && SecOfDay(e) == f && Triggers(e, t.entity, t.to) && Offset(e, day) == f
  {
  }

  lemma {:induction false} FilterJoin<T>(p: T -> bool, xs: seq<T>, ys: seq<T>)
    ensures Filter(p, xs + ys) == Filter(p, xs) + Filter(p, ys)
  {
    if xs == [] {
      assert xs + ys == ys;
    } else {
      assert (xs + ys)[1..] == xs[1..] + ys;
      FilterJoin(p, xs[1..], ys);
    }
  }

  /** All but e are automatic and on the day, so e alone decides who acted when. */
  ghost predicate Around(pre: seq<Event>, post: seq<Event>, day: int) {
    forall x :: x in pre || x in post ==> DayOf(x) == day && x.triggeredBy != "manual"
  }

  lemma OnDayAround(pre: seq<Event>, e: Event, post: seq<Event>, day: int, d: int)
    requires Around(pre, post, day)
    ensures OnDay(pre + [e] + post, d) == if d == day then pre + OnDay([e], d) + post else OnDay([e], d)
  {
    var onDay := (x: Event) => DayOf(x) == d;
    FilterJoin(onDay, pre + [e], post);
    FilterJoin(onDay, pre, [e]);
    if d == day {
      AllPicked(onDay, pre);
      AllPicked(onDay, post);
    } else {
      NothingPicked(onDay, pre);
      NothingPicked(onDay, post);
    }
  }

  lemma OnlyManual(pre: seq<Event>, e: Event, post: seq<Event>, slot: Slot, day: int, tolerance: int)
    requires Around(pre, post, day)
    ensures Human(OnDay(pre + [e] + post, day), slot) == Human(OnDay([e], day), slot)
    ensures Adjacent(pre + [e] + post, day, tolerance) == Adjacent([e], day, tolerance)
  {
    hide OnDay, Around;
    OnDayAround(pre, e, post, day, day);
    OnDayAround(pre, e, post, day, day - 1);
    OnDayAround(pre, e, post, day, day + 1);
    NoneHuman(pre, e, post, slot, day);
    var human := (x: Event) => IsHuman(x, slot);
    FilterJoin(human, pre + OnDay([e], day), post);
    FilterJoin(human, pre, OnDay([e], day));
  }

  lemma NoneHuman(pre: seq<Event>, e: Event, post: seq<Event>, slot: Slot, day: int)
    requires Around(pre, post, day)
    ensures Human(pre, slot) == Human(post, slot) == []
  {
    NothingPicked((x: Event) => IsHuman(x, slot), pre);
    NothingPicked((x: Event) => IsHuman(x, slot), post);
  }

  /** The counters depend on the human events and the neighbours only. */
  lemma {:induction false} TallyDepends(isPair: bool, slots: seq<Slot>, day: int, fires: seq<int>, xs: seq<Event>,
                                        ys: seq<Event>, adjacent: seq<Event>, cfg: Config)
    requires forall slot :: Human(xs, slot) == Human(ys, slot)
    ensures Tally(isPair, slots, day, fires, xs, adjacent, cfg) == Tally(isPair, slots, day, fires, ys, adjacent, cfg)
  {
    hide Human;
    if slots != [] {
      TallyDepends(isPair, slots[..|slots| - 1], day, fires, xs, ys, adjacent, cfg);
    }
  }

  /** Everything of the day, and an event in its reach, is fetched. */
  lemma AllFetched(pre: seq<Event>, slot: Slot, offset: int, post: seq<Event>, entities: set<string>, earliest: int,
                   today: int, day: int, cfg: Config)
    requires Around(pre, post, day) && earliest <= day < today && cfg.tolerance >= 0
    requires forall x :: x in pre || x in post ==> x.entity in entities
    requires slot.entity in entities && Reaches(offset, day, today, cfg.tolerance)
    ensures var history := pre + [HumanAt(slot, day, offset)] + post;
            Fetch(history, entities, earliest, today, cfg) == history
  {
    var e := HumanAt(slot, day, offset);
    ReachesIsConsidered(slot, day, offset, entities, earliest, today, cfg);
    forall x | x in pre + [e] + post ensures Fetches(x, entities, earliest, today, cfg) {
      if x in pre || x in post {
        OffsetOfDay(x, day);
        FetchedAround(x, entities, earliest, today, day, cfg);
      }
    }
    AllPicked((x: Event) => Fetches(x, entities, earliest, today, cfg), pre + [e] + post);
  }

  /** Where the triggers stand around the telling event: it is itself the k-th if it is a
      change to the trigger's state on the day, and comes after all of them otherwise. */
  function Before(t: Trigger, day: int, fires: seq<int>, k: nat, itself: bool): seq<Event>
    requires t.StateTrigger? && (itself ==> k < |fires|)
  {
    TriggersAt(t, day, if itself then fires[..k] else fires)
  }

  function After(t: Trigger, day: int, fires: seq<int>, k: nat, itself: bool): seq<Event>
    requires t.StateTrigger? && (itself ==> k < |fires|)
  {
    TriggersAt(t, day, if itself then fires[k + 1..] else [])
  }

  lemma WitnessAround(t: Trigger, fires: seq<int>, k: nat, day: int, itself: bool)
    requires t.StateTrigger? && (forall i :: 0 <= i < |fires| ==> 0 <= fires[i] < DAY) && (itself ==> k < |fires|)
    ensures var pre, post := Before(t, day, fires, k, itself), After(t, day, fires, k, itself);
            Around(pre, post, day) && forall x :: x in pre || x in post ==> Triggers(x, t.entity, t.to)
  {
    var pre, post := Before(t, day, fires, k, itself), After(t, day, fires, k, itself);
    forall x | x in pre || x in post
      ensures DayOf(x) == day && x.triggeredBy != "manual" && Triggers(x, t.entity, t.to)
    {
      var f :| f in fires && x == TriggerAt(t, day, f);
      TriggerOnDay(t, day, f);
    }
  }

  /** The history around the telling event makes the trigger fire at the given seconds. */
  lemma WitnessFires(t: Trigger, slot: Slot, offset: int, fires: seq<int>, k: nat, day: int)
    requires t.StateTrigger? && forall i :: 0 <= i < |fires| ==> 0 <= fires[i] < DAY
    requires 0 <= offset < DAY ==> k < |fires| && fires[k] == offset
    ensures var itself := slot == Slot(t.entity, t.to) && 0 <= offset < DAY;
            var pre, post := Before(t, day, fires, k, itself), After(t, day, fires, k, itself);
            var rows := OnDay(pre + [HumanAt(slot, day, offset)] + post, day);
            Around(pre, post, day) && Map(SecOfDay, Filter((x: Event) => Triggers(x, t.entity, t.to), rows)) == fires
  {
    hide OnDay, Around, Map, Before, After;
    var itself := slot == Slot(t.entity, t.to) && 0 <= offset < DAY;
    var pre, e, post := Before(t, day, fires, k, itself), HumanAt(slot, day, offset), After(t, day, fires, k, itself);
    WitnessAround(t, fires, k, day, itself);
    HumanAtOffset(slot, day, offset);
    OffsetOfDay(e, day);
    WitnessRows(t, pre, e, post, day);
    WitnessSeconds(t, e, fires, k, day, itself);
  }

  lemma WitnessSeconds(t: Trigger, e: Event, fires: seq<int>, k: nat, day: int, itself: bool)
    requires t.StateTrigger? && forall i :: 0 <= i < |fires| ==> 0 <= fires[i] < DAY
    requires itself ==> k < |fires| && SecOfDay(e) == fires[k]
    ensures var rows := Before(t, day, fires, k, itself) + (if itself then [e] else [])
                        + After(t, day, fires, k, itself);
            Map(SecOfDay, rows) == fires
  {
    hide SecOfDay;
    var rows := Before(t, day, fires, k, itself) + (if itself then [e] else []) + After(t, day, fires, k, itself);
    assert |rows| == |fires|;
    forall i | 0 <= i < |fires| ensures SecOfDay(rows[i]) == fires[i] {
      TriggerOnDay(t, day, fires[i]);
    }
  }

  lemma WitnessRows(t: Trigger, pre: seq<Event>, e: Event, post: seq<Event>, day: int)
    requires t.StateTrigger? && Around(pre, post, day)
    requires forall x :: x in pre || x in post ==> Triggers(x, t.entity, t.to)
    ensures Filter((x: Event) => Triggers(x, t.entity, t.to), OnDay(pre + [e] + post, day))
         == pre + (if DayOf(e) == day && Triggers(e, t.entity, t.to) then [e] else []) + post
  {
    var fires := (x: Event) => Triggers(x, t.entity, t.to);
    OnDayAround(pre, e, post, day, day);
    OnDayOne(e, day);
    FilterJoin(fires, pre + OnDay([e], day), post);
    FilterJoin(fires, pre, OnDay([e], day));
    AllPicked(fires, pre);
    AllPicked(fires, post);
    FilterOne(fires, e);
  }

  // ---------------------------------------------------------------- the theorem

  /** Some day's events make the automation fire at these seconds. */
  ghost predicate CanFire(t: Trigger, conditions: seq<Condition>, calendar: Calendar, fires: seq<int>) {
    if t.StateTrigger? then forall i :: 0 <= i < |fires| ==> 0 <= fires[i] < DAY
    else DueSeconds(t, conditions, calendar) == Some(fires)
  }

  lemma CanFireIff(a: Automation, fires: seq<int>, day: int, calendar: Calendar, entities: set<string>,
                   earliest: int, today: int, cfg: Config)
    requires cfg.tolerance >= 0 && earliest <= day < today && (a.trigger.StateTrigger? ==> a.trigger.entity in entities)
    ensures CanFire(a.trigger, a.conditions, calendar, fires)
       <==> exists history :: FiresAt(a, fires, history, day, calendar, entities, earliest, today, cfg)
  {
    hide Fetch, OnDay;
    var t := a.trigger;
    forall history: seq<Event>
      ensures FiresAt(a, fires, history, day, calendar, entities, earliest, today, cfg)
          ==> CanFire(t, a.conditions, calendar, fires)
    {
      SecondsOfDay(t, a.conditions, calendar, OnDay(Fetch(history, entities, earliest, today, cfg), day));
    }
    if CanFire(t, a.conditions, calendar, fires) {
      if t.StateTrigger? {
        FiresOfTriggers(a, fires, day, calendar, entities, earliest, today, cfg);
      } else {
        ClockFires(t, a.conditions, calendar, OnDay(Fetch([], entities, earliest, today, cfg), day));
        assert FiresAt(a, fires, [], day, calendar, entities, earliest, today, cfg);
      }
    }
  }

  lemma SecondsOfDay(t: Trigger, conditions: seq<Condition>, calendar: Calendar, dayEvents: seq<Event>)
    ensures var fires := FireSeconds(t, conditions, calendar, dayEvents);
            fires.Some? ==> CanFire(t, conditions, calendar, fires.value)
  {
    if t.StateTrigger? {
      var fired := Filter((e: Event) => Triggers(e, t.entity, t.to), dayEvents);
      forall i | 0 <= i < |fired| ensures 0 <= Map(SecOfDay, fired)[i] < DAY {
        OffsetOfDay(fired[i], 0);
      }
    } else {
      ClockFires(t, conditions, calendar, dayEvents);
    }
  }

  lemma FiresOfTriggers(a: Automation, fires: seq<int>, day: int, calendar: Calendar, entities: set<string>,
                        earliest: int, today: int, cfg: Config)
    requires cfg.tolerance >= 0 && earliest <= day < today && a.trigger.StateTrigger? && a.trigger.entity in entities
    requires CanFire(a.trigger, a.conditions, calendar, fires)
    ensures FiresAt(a, fires, TriggersAt(a.trigger, day, fires), day, calendar, entities, earliest, today, cfg)
  {
    hide DayOf, SecOfDay, Triggers, Fetches;
    var t, history := a.trigger, TriggersAt(a.trigger, day, fires);
    forall x | x in history
      ensures Fetches(x, entities, earliest, today, cfg) && DayOf(x) == day && Triggers(x, t.entity, t.to)
    {
      var f :| f in fires && x == TriggerAt(t, day, f);
      TriggerOnDay(t, day, f);
      FetchedAround(x, entities, earliest, today, day, cfg);
    }
    AllPicked((x: Event) => Fetches(x, entities, earliest, today, cfg), history);
    AllPicked((x: Event) => DayOf(x) == day, history);
    AllPicked((x: Event) => Triggers(x, t.entity, t.to), history);
    assert OnDay(Fetch(history, entities, earliest, today, cfg), day) == history;
    forall i | 0 <= i < |fires| ensures SecOfDay(history[i]) == fires[i] {
      TriggerOnDay(t, day, fires[i]);
    }
    assert Map(SecOfDay, history) == fires;
    StateFires(t, a.conditions, calendar, history);
  }

  lemma StateFires(t: Trigger, conditions: seq<Condition>, calendar: Calendar, dayEvents: seq<Event>)
    requires t.StateTrigger?
    ensures FireSeconds(t, conditions, calendar, dayEvents)
         == Some(Map(SecOfDay, Filter((e: Event) => Triggers(e, t.entity, t.to), dayEvents)))
  {
  }

  /** A day with these fires whose score breaks the bound. */
  lemma ExceedingDay(a: Automation, fires: seq<int>, day: int, calendar: Calendar, entities: set<string>,
                     earliest: int, today: int, cfg: Config) returns (history: seq<Event>)
    requires cfg.tolerance >= 0 && earliest <= day < today && CanFire(a.trigger, a.conditions, calendar, fires)
    requires Slots(a.actions).Some? && Slots(a.actions).value != [] && Involves(entities, Slots(a.actions).value)
    requires a.trigger.StateTrigger? ==> a.trigger.entity in entities
    requires !CoverageSafe(a.trigger.StateTrigger?, fires, day, today, cfg)
    ensures FiresAt(a, fires, history, day, calendar, entities, earliest, today, cfg)
    ensures !WithinOne(Pipeline(a, a.trigger.StateTrigger?, day, calendar, history, entities, earliest, today, cfg))
  {
    hide Slots, Tally, CoverageSafe, Hits, Reaches, FireSeconds, Fetch;
    var isPair, slots := a.trigger.StateTrigger?, Slots(a.actions).value;
    if !isPair {
      ClockFires(a.trigger, a.conditions, calendar, []);
    }
    var offset, k := TellingEvent(isPair, fires, day, today, cfg);
    var pre, post := TriggersAround(a, slots[0], offset, fires, k, day, calendar, entities);
    history := pre + [HumanAt(slots[0], day, offset)] + post;
    AllFetched(pre, slots[0], offset, post, entities, earliest, today, day, cfg);
    WitnessScore(isPair, slots, day, offset, fires, pre, post, today, cfg);
  }

  /** Triggers that, with the telling event, make the automation fire at the given seconds. */
  lemma TriggersAround(a: Automation, slot: Slot, offset: int, fires: seq<int>, k: nat, day: int, calendar: Calendar,
                       entities: set<string>) returns (pre: seq<Event>, post: seq<Event>)
    requires CanFire(a.trigger, a.conditions, calendar, fires)
    requires 0 <= offset < DAY ==> k < |fires| && fires[k] == offset
    requires a.trigger.StateTrigger? ==> a.trigger.entity in entities
    ensures Around(pre, post, day) && forall x :: x in pre || x in post ==> x.entity in entities
    ensures FireSeconds(a.trigger, a.conditions, calendar, OnDay(pre + [HumanAt(slot, day, offset)] + post, day))
         == Some(fires)
  {
    hide OnDay;
    var t := a.trigger;
    if t.StateTrigger? {
      var itself := slot == Slot(t.entity, t.to) && 0 <= offset < DAY;
      pre, post := Before(t, day, fires, k, itself), After(t, day, fires, k, itself);
      WitnessFires(t, slot, offset, fires, k, day);
      StateFires(t, a.conditions, calendar, OnDay(pre + [HumanAt(slot, day, offset)] + post, day));
    } else {
      pre, post := [], [];
      ClockFires(t, a.conditions, calendar, OnDay(pre + [HumanAt(slot, day, offset)] + post, day));
    }
  }

  lemma WitnessScore(isPair: bool, slots: seq<Slot>, day: int, offset: int, fires: seq<int>, pre: seq<Event>,
                     post: seq<Event>, today: int, cfg: Config)
    requires slots != [] && Around(pre, post, day) && Reaches(offset, day, today, cfg.tolerance)
    requires Hits(isPair, offset, fires, cfg) > if 0 <= offset < DAY then 1 else 0
    ensures var history := pre + [HumanAt(slots[0], day, offset)] + post;
            var s := Tally(isPair, slots, day, fires, OnDay(history, day), Adjacent(history, day, cfg.tolerance), cfg);
            s.humanMatches > s.humanTotal
  {
    hide Tally, Hits, OnDay, Adjacent, Human;
    var e := HumanAt(slots[0], day, offset);
    var history := pre + [e] + post;
    forall slot ensures Human(OnDay(history, day), slot) == Human(OnDay([e], day), slot) {
      OnlyManual(pre, e, post, slot, day, cfg.tolerance);
    }
    OnlyManual(pre, e, post, slots[0], day, cfg.tolerance);
    TallyDepends(isPair, slots, day, fires, OnDay(history, day), OnDay([e], day),
                 Adjacent([e], day, cfg.tolerance), cfg);
    OneEventTally(isPair, slots, slots[0], day, offset, fires, cfg);
  }

  /** The documented bound holds on every day with these fires exactly when they are safe:
      pair fires more than the window apart and ending before midnight, or a clock fire
      more than twice the tolerance from both midnights. */
  lemma CoverageAtMostOneIff(a: Automation, fires: seq<int>, day: int, calendar: Calendar, entities: set<string>,
                             earliest: int, today: int, cfg: Config)
    requires cfg.tolerance >= 0 && earliest <= day < today && CanFire(a.trigger, a.conditions, calendar, fires)
    requires Slots(a.actions).Some? && Slots(a.actions).value != [] && Involves(entities, Slots(a.actions).value)
    requires a.trigger.StateTrigger? ==> a.trigger.entity in entities
    ensures CoverageAtMostOne(a, fires, day, calendar, entities, earliest, today, cfg)
       <==> CoverageSafe(a.trigger.StateTrigger?, fires, day, today, cfg)
  {
    hide Slots, Tally, Fetch, Adjacent, ReachedTotal, KeepsToItsDay;
    var isPair, slots := a.trigger.StateTrigger?, Slots(a.actions).value;
    if CoverageSafe(isPair, fires, day, today, cfg) {
      forall history: seq<Event> | FiresAt(a, fires, history, day, calendar, entities, earliest, today, cfg)
        ensures WithinOne(Pipeline(a, isPair, day, calendar, history, entities, earliest, today, cfg))
      {
        var rows := Fetch(history, entities, earliest, today, cfg);
        CoverageBound(isPair, slots, day, fires, OnDay(rows, day), Adjacent(rows, day, cfg.tolerance), cfg);
        SafeTally(isPair, slots, day, fires, history, entities, earliest, today, cfg);
      }
    } else {
      var history := ExceedingDay(a, fires, day, calendar, entities, earliest, today, cfg);
    }
  }

  /** So no pair automation with a usable window keeps it on every day: it can fire twice
      within one second, and its target can be driven by hand in that second. */
  lemma EveryPairCanExceedOne(a: Automation, day: int, calendar: Calendar, entities: set<string>, earliest: int,
                              today: int, cfg: Config) returns (history: seq<Event>)
    requires a.trigger.StateTrigger? && a.trigger.entity in entities
    requires cfg.tolerance >= 0 && cfg.pairWindow >= 0 && earliest <= day < today
    requires Slots(a.actions).Some? && Slots(a.actions).value != [] && Involves(entities, Slots(a.actions).value)
    ensures !WithinOne(Pipeline(a, true, day, calendar, history, entities, earliest, today, cfg))
  {
    hide Pipeline, Slots;
    assert Abs([0, 0][0] - [0, 0][1]) <= cfg.pairWindow;
    history := ExceedingDay(a, [0, 0], day, calendar, entities, earliest, today, cfg);
  }

  /** A clock automation fires at most once a day, so its fires never share events. */
  lemma ClockFiresApart(t: Trigger, conditions: seq<Condition>, calendar: Calendar, dayEvents: seq<Event>, cfg: Config)
    requires !t.StateTrigger? && FireSeconds(t, conditions, calendar, dayEvents).Some?
    ensures FiresApart(false, FireSeconds(t, conditions, calendar, dayEvents).value, cfg)
  {
  }

  /** The documented "coverage stays in [0, 1]" fails: a fire at 00:10 matched only by
      the previous evening's 23:55 scores one match out of zero events. */
  lemma CoverageCanExceedOne()
    ensures var slot, cfg := Slot("switch.a", "on"), Config(45 * 60, 5 * 60);
            var e := Event((9 * DAY + 23 * 3600 + 55 * 60) * MICRO, "switch.a", "on", "manual");
            Tally(false, [slot], 10, [10 * 60], [], [e], cfg) == DayScore(1, 1, 0)
  {
    var slot, cfg := Slot("switch.a", "on"), Config(45 * 60, 5 * 60);
    var e := Event((9 * DAY + 23 * 3600 + 55 * 60) * MICRO, "switch.a", "on", "manual");
    assert Second(e) == 9 * DAY + 86100;
    OffsetOfDay(e, 9);
    FilterOne((x: Event) => IsHuman(x, slot), e);
    var cs := MatchCandidates(slot, 10, [], [e]);
    assert cs == [-300];
    assert Dist(-300, 600) == 900 by { DistFromOffset(-300, 600, 0, 900); }
    assert InWindow(false, cs[0], 600, cfg) && MatchedBy(false, cs, 600, cfg);
    assert [slot][..0] == [];
    FilterOne((m: int) => MatchedBy(false, cs, m, cfg), 600);
  }

  function HallLight(): Automation {
    Automation(StateTrigger("binary_sensor.door", "on"), [], [Action("light" + ['.'] + "turn_on", ["light.hall"])])
  }

  lemma HallSlots()
    ensures Slots(HallLight().actions) == Some([Slot("light.hall", "on")])
  {
    hide ExpectedState, SlotsOf;
    TurnOnMeansOn();
    OneAction(HallLight().actions[0]);
    assert HallLight().actions == [HallLight().actions[0]];
    assert SlotsOf(["light.hall"], "on") == [Slot("light.hall", "on")] by { OneTarget("light.hall", "on"); }
  }

  lemma OneTarget(entity: string, state: string)
    ensures SlotsOf([entity], state) == [Slot(entity, state)]
  {
  }

  lemma TurnOnMeansOn()
    ensures ExpectedState("light" + ['.'] + "turn_on") == Some("on")
  {
    SplitJoins("light", "turn_on");
  }

  lemma OneAction(action: Action)
    requires ExpectedState(action.service).Some?
    ensures Slots([action]) == Some(SlotsOf(action.targets, ExpectedState(action.service).value))
  {
    assert [action][..0] == [] && Slots([]) == Some([]);
    var slots := SlotsOf(action.targets, ExpectedState(action.service).value);
    assert [] + slots == slots;
  }

  function Door(): Event { Event((10 * DAY + 86280) * MICRO, "binary_sensor.door", "on", "automation") }

  function Hand(): Event { Event((11 * DAY + 60) * MICRO, "light.hall", "on", "manual") }

  lemma HallTimes()
    ensures DayOf(Door()) == 10 && SecOfDay(Door()) == 86280 && RelativeSecond(Hand(), 10) == 86460
  {
    assert Second(Door()) == 10 * DAY + 86280 && Second(Hand()) == 11 * DAY + 60;
    OffsetOfDay(Door(), 10);
    OffsetOfDay(Hand(), 11);
  }

  lemma HallCandidates()
    ensures Human([Door()], Slot("light.hall", "on")) == []
    ensures MatchCandidates(Slot("light.hall", "on"), 10, [Door()], [Hand()]) == [86460]
  {
    HallTimes();
    FilterOne((x: Event) => IsHuman(x, Slot("light.hall", "on")), Door());
    FilterOne((x: Event) => IsHuman(x, Slot("light.hall", "on")), Hand());
  }

  /** A pair's score fails too: the door opens at 23:58, the light is switched by hand at
      00:01, and the day gets one match out of zero events. */
  lemma PairCoverageCanExceedOne(calendar: Calendar)
    ensures Evaluate(HallLight(), true, 10, calendar, [Door()], [Hand()], Config(45 * 60, 5 * 60))
         == Scored(DayScore(1, 1, 0))
  {
    hide Slots, RelativeSecond, Human, MatchCandidates, Tally, Map;
    var slot, cfg := Slot("light.hall", "on"), Config(45 * 60, 5 * 60);
    HallSlots();
    HallTimes();
    HallCandidates();
    FilterOne((x: Event) => Triggers(x, "binary_sensor.door", "on"), Door());
    StateFires(HallLight().trigger, [], calendar, [Door()]);
    assert Map(SecOfDay, [Door()]) == [86280];
    assert InWindow(true, MatchCandidates(slot, 10, [Door()], [Hand()])[0], 86280, cfg);
    OneSlotOneFire(true, slot, 10, 86280, [Door()], [Hand()], cfg);
  }

  lemma OneSlotOneFire(isPair: bool, slot: Slot, day: int, fire: int, dayEvents: seq<Event>, adjacent: seq<Event>,
                       cfg: Config)
    ensures var matched := MatchedBy(isPair, MatchCandidates(slot, day, dayEvents, adjacent), fire, cfg);
            Tally(isPair, [slot], day, [fire], dayEvents, adjacent, cfg)
              == DayScore(1, if matched then 1 else 0, |Human(dayEvents, slot)|)
  {
    hide MatchedBy, MatchCandidates, Human;
    var cs := MatchCandidates(slot, day, dayEvents, adjacent);
    assert [slot][..0] == [];
    TallyNothing(isPair, day, [fire], dayEvents, adjacent, cfg);
    FilterOne((m: int) => MatchedBy(isPair, cs, m, cfg), fire);
  }
}
