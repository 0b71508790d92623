/** Shadow scoring of one proposal on one day (src/pae/shadow/service.py): the
    widened fetch, day buckets, adjacent tails and heads and shifted axis, proved
    equal to matching over the whole event history. */
module Shadow {
  import opened Prelude
  import opened Circle
  import opened Schema

  // --------------------------------------------------------------- the data

  const MICRO := 1000000

  /** `time` is the local wall clock in microseconds; days have a fixed length. */
  datatype Event = Event(time: int, entity: string, state: string, triggeredBy: string)

  /** The whole second an instant falls in: the clock reading drops fractions. */
  function Second(e: Event): int { e.time / MICRO }

  function DayOf(e: Event): int { Second(e) / DAY }

  function SecOfDay(e: Event): int { Second(e) % DAY }

  datatype Config = Config(tolerance: int, pairWindow: int)

  datatype DayScore = DayScore(expectedFires: nat, humanMatches: nat, humanTotal: nat)

  /** None of the original's `None` result is an error; a failed state lookup is. */
  datatype Evaluation = Scored(score: DayScore) | NotEvaluable | LookupFailed

  /** An (entity, state) pair an action is expected to produce. */
  datatype Slot = Slot(entity: string, state: string)

  /** What the calendar says about a day: its weekday, and the sun's times. */
  datatype Calendar = Calendar(weekday: string, sun: Option<(int, int)>)

  // ---------------------------------------------------------- small functions

  predicate PassesConditions(conditions: seq<Condition>, weekday: string) {
    forall i :: 0 <= i < |conditions| && conditions[i].TimeCondition? && conditions[i].weekdays.Some? ==>
      weekday in conditions[i].weekdays.value
  }

  /** Clock reading shifted onto a continuous axis around `day`. */
  function RelativeSecond(e: Event, day: int): int {
    if DayOf(e) < day then SecOfDay(e) - DAY
    else if DayOf(e) > day then SecOfDay(e) + DAY
    else SecOfDay(e)
  }

  function Map<A, B>(f: A -> B, xs: seq<A>): (ys: seq<B>)
    ensures |ys| == |xs| && forall i :: 0 <= i < |xs| ==> ys[i] == f(xs[i])
  {
    if xs == [] then [] else [f(xs[0])] + Map(f, xs[1..])
  }

  predicate Triggers(e: Event, entity: string, to: string) { e.entity == entity && e.state == to }

  /** Would-fire seconds of the day, or None when the day cannot be evaluated. */
  function FireSeconds(t: Trigger, conditions: seq<Condition>, calendar: Calendar,
                       dayEvents: seq<Event>): Option<seq<int>> {
    match t
    case TimeTrigger(at) => Some(if PassesConditions(conditions, calendar.weekday) then [at] else [])
    case SunTrigger(event, offset) =>
      if calendar.sun.None? then None
      else Some(if PassesConditions(conditions, calendar.weekday) then [Anchor(calendar.sun.value, event) + offset]
          else [])
    case StateTrigger(entity, to) =>
      Some(Map(SecOfDay, Filter((e: Event) => Triggers(e, entity, to), dayEvents)))
  }

  predicate InWindow(isPair: bool, ev: int, fire: int, cfg: Config) {
    if isPair then 0 <= ev - fire <= cfg.pairWindow else Dist(ev, fire) <= cfg.tolerance
  }

  predicate IsHuman(e: Event, slot: Slot) {
    e.entity == slot.entity && e.state == slot.state && e.triggeredBy == "manual"
  }

  function Human(events: seq<Event>, slot: Slot): seq<Event> {
    Filter((e: Event) => IsHuman(e, slot), events)
  }

  predicate MatchedBy(isPair: bool, candidates: seq<int>, fire: int, cfg: Config) {
    exists k :: 0 <= k < |candidates| && InWindow(isPair, candidates[k], fire, cfg)
  }

  function CountMatched(isPair: bool, fires: seq<int>, candidates: seq<int>, cfg: Config): nat {
    |Filter((m: int) => MatchedBy(isPair, candidates, m, cfg), fires)|
  }

  function MatchCandidates(slot: Slot, day: int, dayEvents: seq<Event>, adjacent: seq<Event>): seq<int> {
    Map((e: Event) => RelativeSecond(e, day), Human(dayEvents, slot))
      + Map((e: Event) => RelativeSecond(e, day), Human(adjacent, slot))
  }

  function ExpectedState(service: string): Option<string> {
    match SplitService(service)
    case None => None
    case Some((_, name)) => if name in SERVICE_STATE then Some(SERVICE_STATE[name]) else None
  }

  function SlotsOf(targets: seq<string>, state: string): (slots: seq<Slot>)
    ensures |slots| == |targets|
  {
    seq(|targets|, i requires 0 <= i < |targets| => Slot(targets[i], state))
  }

  /** One slot per action and target; None where the state lookup would fail. */
  function Slots(actions: seq<Action>): Option<seq<Slot>> {
    if actions == [] then Some([])
    else
      var front := Slots(actions[..|actions| - 1]);
      var last := actions[|actions| - 1];
      var state := ExpectedState(last.service);
      if front.None? || state.None? then None else Some(front.value + SlotsOf(last.targets, state.value))
  }

  /** The three counters over a list of slots. */
  function Tally(isPair: bool, slots: seq<Slot>, day: int, fires: seq<int>, dayEvents: seq<Event>,
                 adjacent: seq<Event>, cfg: Config): DayScore {
    if slots == [] then DayScore(0, 0, 0)
    else
      var sofar := Tally(isPair, slots[..|slots| - 1], day, fires, dayEvents, adjacent, cfg);
      var slot := slots[|slots| - 1];
      DayScore(sofar.expectedFires + |fires|,
               sofar.humanMatches + CountMatched(isPair, fires, MatchCandidates(slot, day, dayEvents, adjacent), cfg),
               sofar.humanTotal + |Human(dayEvents, slot)|)
  }

  /** evaluate_day on a parsed automation. */
  function Evaluate(a: Automation, isPair: bool, day: int, calendar: Calendar, dayEvents: seq<Event>,
                    adjacent: seq<Event>, cfg: Config): Evaluation {
    match FireSeconds(a.trigger, a.conditions, calendar, dayEvents)
    case None => NotEvaluable
    case Some(fires) =>
      match Slots(a.actions)
      case None => LookupFailed
      case Some(slots) => Scored(Tally(isPair, slots, day, fires, dayEvents, adjacent, cfg))
  }

  // ---------------------------------------------------------- the two loops

  lemma TallySnoc(isPair: bool, slots: seq<Slot>, slot: Slot, day: int, fires: seq<int>, dayEvents: seq<Event>,
                  adjacent: seq<Event>, cfg: Config)
    ensures var s := Tally(isPair, slots, day, fires, dayEvents, adjacent, cfg);
            Tally(isPair, slots + [slot], day, fires, dayEvents, adjacent, cfg)
              == DayScore(s.expectedFires + |fires|,
                          s.humanMatches + CountMatched(isPair, fires, MatchCandidates(slot, day, dayEvents, adjacent),
                              cfg),
                          s.humanTotal + |Human(dayEvents, slot)|)
  {
  }

  method EvaluateDay(parse: Option<Automation>, isPair: bool, day: int, calendar: Calendar, dayEvents: seq<Event>,
                     adjacent: seq<Event>, cfg: Config)
    returns (r: Evaluation)
    ensures r == if parse.None? then NotEvaluable
        else Evaluate(parse.value, isPair, day, calendar, dayEvents, adjacent, cfg)
  {
    hide Tally, ExpectedState;
    if parse.None? {
      return NotEvaluable;
    }
    var a := parse.value;
    var fires := FireSeconds(a.trigger, a.conditions, calendar, dayEvents);
    if fires.None? {
      return NotEvaluable;
    }
    var score := DayScore(0, 0, 0);
    ghost var done: seq<Slot> := [];
    TallyNothing(isPair, day, fires.value, dayEvents, adjacent, cfg);
    for i := 0 to |a.actions|
      invariant Slots(a.actions[..i]) == Some(done)
      invariant score == Tally(isPair, done, day, fires.value, dayEvents, adjacent, cfg)
    {
      var action := a.actions[i];
      assert a.actions[..i + 1][..i] == a.actions[..i];
      var state := ExpectedState(action.service);
      if state.None? {
        SlotsStuck(a.actions, i + 1);
        return LookupFailed;
      }
      score := EvaluateTargets(isPair, action.targets, state.value, day, fires.value, dayEvents, adjacent, cfg, score,
          done);
      done := done + SlotsOf(action.targets, state.value);
    }
    assert a.actions[..|a.actions|] == a.actions;
    return Scored(score);
  }

  lemma TallyNothing(isPair: bool, day: int, fires: seq<int>, dayEvents: seq<Event>, adjacent: seq<Event>, cfg: Config)
    ensures Tally(isPair, [], day, fires, dayEvents, adjacent, cfg) == DayScore(0, 0, 0)
  {
  }

  lemma {:induction false} SlotsStuck(actions: seq<Action>, n: nat)
    requires n <= |actions| && Slots(actions[..n]).None?
    ensures Slots(actions).None?
    decreases |actions|
  {
    hide ExpectedState, SlotsOf;
    if n < |actions| {
      var l := |actions| - 1;
      assert actions[..l][..n] == actions[..n];
      SlotsStuck(actions[..l], n);
    } else {
      assert actions[..n] == actions;
    }
  }

  /** The inner loop over one action's targets. */
  method EvaluateTargets(isPair: bool, targets: seq<string>, state: string, day: int, fires: seq<int>,
                         dayEvents: seq<Event>, adjacent: seq<Event>, cfg: Config, before: DayScore,
                         ghost done: seq<Slot>)
    returns (score: DayScore)
    requires before == Tally(isPair, done, day, fires, dayEvents, adjacent, cfg)
    ensures score == Tally(isPair, done + SlotsOf(targets, state), day, fires, dayEvents, adjacent, cfg)
  {
    hide Tally;
    var expectedFires: nat, humanMatches: nat, humanTotal: nat := before.expectedFires, before.humanMatches,
        before.humanTotal;
    assert done + SlotsOf(targets, state)[..0] == done;
    for k := 0 to |targets|
      invariant DayScore(expectedFires, humanMatches, humanTotal)
             == Tally(isPair, done + SlotsOf(targets, state)[..k], day, fires, dayEvents, adjacent, cfg)
    {
      var slot := Slot(targets[k], state);
      var candidates := MatchCandidates(slot, day, dayEvents, adjacent);
      TallySnoc(isPair, done + SlotsOf(targets, state)[..k], slot, day, fires, dayEvents, adjacent, cfg);
      assert done + SlotsOf(targets, state)[..k + 1] == (done + SlotsOf(targets, state)[..k]) + [slot];
      expectedFires := expectedFires + |fires|;
      humanTotal := humanTotal + |Human(dayEvents, slot)|;
      humanMatches := humanMatches + CountMatched(isPair, fires, candidates, cfg);
    }
    assert SlotsOf(targets, state)[..|targets|] == SlotsOf(targets, state);
    score := DayScore(expectedFires, humanMatches, humanTotal);
  }

  // ------------------------------------------------- fetch, bucket, neighbours

  /** The fetched range [start, end): both ends widened by the tolerance. */
  predicate Fetches(e: Event, entities: set<string>, earliest: int, today: int, cfg: Config) {
    && e.entity in entities
    && (earliest * DAY - cfg.tolerance) * MICRO <= e.time < (today * DAY + cfg.tolerance) * MICRO
  }

  function Fetch(history: seq<Event>, entities: set<string>, earliest: int, today: int, cfg: Config): seq<Event> {
    Filter((e: Event) => Fetches(e, entities, earliest, today, cfg), history)
  }

  function OnDay(rows: seq<Event>, day: int): seq<Event> {
    Filter((e: Event) => DayOf(e) == day, rows)
  }

  predicate InTail(e: Event, day: int, tolerance: int) { DayOf(e) == day - 1 && SecOfDay(e) >= DAY - tolerance }

  predicate InHead(e: Event, day: int, tolerance: int) { DayOf(e) == day + 1 && SecOfDay(e) <= tolerance }

  /** Tail of the day before and head of the day after. */
  function Adjacent(rows: seq<Event>, day: int, tolerance: int): seq<Event> {
    Filter((e: Event) => SecOfDay(e) >= DAY - tolerance, OnDay(rows, day - 1))
      + Filter((e: Event) => SecOfDay(e) <= tolerance, OnDay(rows, day + 1))
  }

  /** What run_shadow_eval computes for one proposal and day. */
  function Pipeline(a: Automation, isPair: bool, day: int, calendar: Calendar, history: seq<Event>,
                    entities: set<string>, earliest: int, today: int, cfg: Config): Evaluation {
    var rows := Fetch(history, entities, earliest, today, cfg);
    Evaluate(a, isPair, day, calendar, OnDay(rows, day), Adjacent(rows, day, cfg.tolerance), cfg)
  }

  // ------------------------------------------- the reference: whole histories

  /** Seconds from local midnight of `day`, on the unbounded axis. */
  function Offset(e: Event, day: int): int { Second(e) - day * DAY }

  /** Some human event in the whole history follows the fire within the window. */
  ghost predicate FollowedBy(history: seq<Event>, slot: Slot, day: int, fire: int, window: int) {
    exists e :: e in history && IsHuman(e, slot) && 0 <= Offset(e, day) - fire <= window
  }

  /** Some human event in the whole history is within the tolerance, in real time. */
  ghost predicate NearInTime(history: seq<Event>, slot: Slot, day: int, fire: int, tolerance: int) {
    exists e :: e in history && IsHuman(e, slot) && Abs(Offset(e, day) - fire) <= tolerance
  }

  /** The match a fire really has. */
  ghost predicate TrueMatch(isPair: bool, history: seq<Event>, slot: Slot, day: int, fire: int, cfg: Config) {
    if isPair then FollowedBy(history, slot, day, fire, cfg.pairWindow)
    else NearInTime(history, slot, day, fire, cfg.tolerance)
  }

  ghost function TrueTally(isPair: bool, slots: seq<Slot>, day: int, fires: seq<int>, history: seq<Event>,
                           cfg: Config): DayScore {
    if slots == [] then DayScore(0, 0, 0)
    else
      var sofar := TrueTally(isPair, slots[..|slots| - 1], day, fires, history, cfg);
      var slot := slots[|slots| - 1];
      DayScore(sofar.expectedFires + |fires|,
               sofar.humanMatches + |Filter((m: int) => TrueMatch(isPair, history, slot, day, m, cfg), fires)|,
               sofar.humanTotal + |Filter((e: Event) => DayOf(e) == day && IsHuman(e, slot), history)|)
  }

  /** The day's changes of an entity to a state, by whomever. */
  ghost function ChangesTo(history: seq<Event>, entity: string, to: string, day: int): seq<Event> {
    Filter((e: Event) => e.time / MICRO / DAY == day && e.entity == entity && e.state == to, history)
  }

  /** The clock time a time or sun trigger names, on a day with these sun times. */
  ghost function ClockTime(t: Trigger, sun: Option<(int, int)>): Option<int>
    requires !t.StateTrigger?
  {
    if t.TimeTrigger? then Some(t.at)
    else match sun
      case None => None
      case Some((rises, sets)) => Some(t.offset + if t.event == Sunset then sets else rises)
  }

  /** Some weekday condition leaves the day out. */
  ghost predicate LeftOut(conditions: seq<Condition>, weekday: string) {
    exists c :: c in conditions && c.TimeCondition? && c.weekdays.Some? && weekday !in c.weekdays.value
  }

  /** When a clock automation is due on a day; None if the sun does not say. */
  ghost function DueSeconds(t: Trigger, conditions: seq<Condition>, calendar: Calendar): Option<seq<int>>
    requires !t.StateTrigger?
  {
    match ClockTime(t, calendar.sun)
    case None => None
    case Some(m) => Some(if LeftOut(conditions, calendar.weekday) then [] else [m])
  }

  /** Score of a state-triggered pair proposal with no fetch, buckets or shifts. */
  ghost function PairScore(a: Automation, day: int, history: seq<Event>, cfg: Config): Evaluation
    requires a.trigger.StateTrigger?
  {
    var fires := Map((e: Event) => Offset(e, day), ChangesTo(history, a.trigger.entity, a.trigger.to, day));
    match Slots(a.actions)
    case None => LookupFailed
    case Some(slots) => Scored(TrueTally(true, slots, day, fires, history, cfg))
  }

  /** Score of a time- or sun-triggered proposal in real time, whatever the history. */
  ghost function ClockScore(a: Automation, day: int, calendar: Calendar, history: seq<Event>, cfg: Config): Evaluation
    requires !a.trigger.StateTrigger?
  {
    match DueSeconds(a.trigger, a.conditions, calendar)
    case None => NotEvaluable
    case Some(fires) =>
      match Slots(a.actions)
      case None => LookupFailed
      case Some(slots) => Scored(TrueTally(false, slots, day, fires, history, cfg))
  }

  // ------------------------------------------------------------ time arithmetic

  lemma OffsetOfDay(e: Event, day: int)
    ensures Offset(e, day) == SecOfDay(e) + (DayOf(e) - day) * DAY
    ensures 0 <= SecOfDay(e) < DAY
  {
  }

  lemma SecondBounds(e: Event, lo: int, hi: int)
    ensures lo * MICRO <= e.time < hi * MICRO <==> lo <= Second(e) < hi
  {
  }

  /** On the three days around `day` the shifted axis is real time. */
  lemma RelativeIsOffset(e: Event, day: int)
    requires day - 1 <= DayOf(e) <= day + 1
    ensures RelativeSecond(e, day) == Offset(e, day)
  {
  }

  /** Every event of a scored day, its tail and its head in reach, is fetched. */
  lemma FetchedAround(e: Event, entities: set<string>, earliest: int, today: int, day: int, cfg: Config)
    requires e.entity in entities && earliest <= day < today && cfg.tolerance >= 0
    requires -cfg.tolerance <= Offset(e, day) < DAY + cfg.tolerance
    ensures Fetches(e, entities, earliest, today, cfg)
  {
  }

  // -------------------------------------------------- which events are candidates

  lemma {:induction false} FilterSame<T>(p: T -> bool, q: T -> bool, xs: seq<T>)
    requires forall x :: x in xs ==> (p(x) <==> q(x))
    ensures Filter(p, xs) == Filter(q, xs)
  {
    if xs != [] {
      FilterSame(p, q, xs[1..]);
    }
  }

  /** Takes part in matching on `day`: that day, or close to it in a neighbouring day. */
  predicate Considered(e: Event, day: int, tolerance: int) {
    DayOf(e) == day || InTail(e, day, tolerance) || InHead(e, day, tolerance)
  }

  predicate IsCandidate(e: Event, history: seq<Event>, slot: Slot, day: int, entities: set<string>, earliest: int,
                        today: int, cfg: Config) {
    e in history && IsHuman(e, slot) && Fetches(e, entities, earliest, today, cfg) && Considered(e, day, cfg.tolerance)
  }

  ghost function Candidates(history: seq<Event>, slot: Slot, day: int, entities: set<string>, earliest: int,
                            today: int, cfg: Config): seq<int> {
    var rows := Fetch(history, entities, earliest, today, cfg);
    MatchCandidates(slot, day, OnDay(rows, day), Adjacent(rows, day, cfg.tolerance))
  }

  lemma HumanSource(e: Event, slot: Slot, day: int, history: seq<Event>, entities: set<string>, earliest: int,
                    today: int, cfg: Config)
    ensures var rows := Fetch(history, entities, earliest, today, cfg);
            && (e in Human(OnDay(rows, day), slot) <==> e in rows && DayOf(e) == day && IsHuman(e, slot))
            && (e in Human(Adjacent(rows, day, cfg.tolerance), slot) <==>
                e in rows && (InTail(e, day, cfg.tolerance) || InHead(e, day, cfg.tolerance)) && IsHuman(e, slot))
            && (e in rows <==> e in history && Fetches(e, entities, earliest, today, cfg))
  {
    var rows := Fetch(history, entities, earliest, today, cfg);
    FilterMembers((x: Event) => Fetches(x, entities, earliest, today, cfg), history, e);
    FilterMembers((x: Event) => DayOf(x) == day, rows, e);
    FilterMembers((x: Event) => IsHuman(x, slot), OnDay(rows, day), e);
    FilterMembers((x: Event) => IsHuman(x, slot), Adjacent(rows, day, cfg.tolerance), e);
    AdjacentMembers(e, rows, day, cfg.tolerance);
  }

  lemma AdjacentMembers(e: Event, rows: seq<Event>, day: int, tolerance: int)
    ensures e in Adjacent(rows, day, tolerance)
        <==> e in rows && (InTail(e, day, tolerance) || InHead(e, day, tolerance))
  {
    FilterMembers((x: Event) => DayOf(x) == day - 1, rows, e);
    FilterMembers((x: Event) => DayOf(x) == day + 1, rows, e);
    FilterMembers((x: Event) => SecOfDay(x) >= DAY - tolerance, OnDay(rows, day - 1), e);
    FilterMembers((x: Event) => SecOfDay(x) <= tolerance, OnDay(rows, day + 1), e);
  }

  lemma MapMembers<A, B>(f: A -> B, xs: seq<A>, y: B)
    ensures y in Map(f, xs) <==> exists x :: x in xs && f(x) == y
  {
  }

  /** Candidates are exactly the shifted readings of the considered human events. */
  lemma CandidateEvents(c: int, history: seq<Event>, slot: Slot, day: int, entities: set<string>, earliest: int,
                        today: int, cfg: Config)
    ensures c in Candidates(history, slot, day, entities, earliest, today, cfg)
       <==> exists e ::
              IsCandidate(e, history, slot, day, entities, earliest, today, cfg) && RelativeSecond(e, day) == c
  {
    var rows := Fetch(history, entities, earliest, today, cfg);
    var here, near := Human(OnDay(rows, day), slot), Human(Adjacent(rows, day, cfg.tolerance), slot);
    var shift := (e: Event) => RelativeSecond(e, day);
    MapMembers(shift, here, c);
    MapMembers(shift, near, c);
    forall e ensures IsCandidate(e, history, slot, day, entities, earliest, today, cfg) <==> e in here || e in near {
      HumanSource(e, slot, day, history, entities, earliest, today, cfg);
    }
    if c in Candidates(history, slot, day, entities, earliest, today, cfg) {
      var e :| (e in here || e in near) && shift(e) == c;
      assert IsCandidate(e, history, slot, day, entities, earliest, today, cfg);
    }
  }

  lemma MatchedMeans(isPair: bool, fire: int, history: seq<Event>, slot: Slot, day: int, entities: set<string>,
                     earliest: int, today: int, cfg: Config)
    ensures MatchedBy(isPair, Candidates(history, slot, day, entities, earliest, today, cfg), fire, cfg)
       <==> exists e ::
              && IsCandidate(e, history, slot, day, entities, earliest, today, cfg)
              && InWindow(isPair, RelativeSecond(e, day), fire, cfg)
  {
    var cs := Candidates(history, slot, day, entities, earliest, today, cfg);
    if MatchedBy(isPair, cs, fire, cfg) {
      var k :| 0 <= k < |cs| && InWindow(isPair, cs[k], fire, cfg);
      CandidateEvents(cs[k], history, slot, day, entities, earliest, today, cfg);
    }
    if e :| && IsCandidate(e, history, slot, day, entities, earliest, today, cfg)
            && InWindow(isPair, RelativeSecond(e, day), fire, cfg) {
      CandidateEvents(RelativeSecond(e, day), history, slot, day, entities, earliest, today, cfg);
    }
  }

  // ------------------------------------------------------------- event pairs

  /** A pair fire is matched iff some human event in the unbounded history follows it
      within the window: nothing is missed and nothing is invented. */
  lemma PairMatchIsExact(fire: int, history: seq<Event>, slot: Slot, day: int, entities: set<string>, earliest: int,
                         today: int, cfg: Config)
    requires 0 <= fire < DAY && slot.entity in entities && earliest <= day < today
    requires cfg.pairWindow <= cfg.tolerance && cfg.pairWindow <= DAY && cfg.tolerance >= 0
    ensures MatchedBy(true, Candidates(history, slot, day, entities, earliest, today, cfg), fire, cfg)
       <==> FollowedBy(history, slot, day, fire, cfg.pairWindow)
  {
    MatchedMeans(true, fire, history, slot, day, entities, earliest, today, cfg);
    if e :| && IsCandidate(e, history, slot, day, entities, earliest, today, cfg)
            && InWindow(true, RelativeSecond(e, day), fire, cfg) {
      RelativeIsOffset(e, day);
    }
    if e :| e in history && IsHuman(e, slot) && 0 <= Offset(e, day) - fire <= cfg.pairWindow {
      FollowerIsCandidate(e, fire, day, cfg);
      FetchedAround(e, entities, earliest, today, day, cfg);
      RelativeIsOffset(e, day);
      assert IsCandidate(e, history, slot, day, entities, earliest, today, cfg);
    }
  }

  lemma FollowerIsCandidate(e: Event, fire: int, day: int, cfg: Config)
    requires 0 <= fire < DAY && 0 <= Offset(e, day) - fire <= cfg.pairWindow
    requires cfg.pairWindow <= cfg.tolerance && cfg.pairWindow <= DAY
    ensures DayOf(e) == day || DayOf(e) == day + 1
    ensures Considered(e, day, cfg.tolerance)
    ensures 0 <= Offset(e, day) < DAY + cfg.tolerance
  {
  }

  /** Humans on the day, triggers on the day: the fetched bucket is the whole history's. */
  lemma BucketIsComplete(p: Event -> bool, q: Event -> bool, history: seq<Event>, entities: set<string>,
                         earliest: int, today: int, day: int, cfg: Config)
    requires earliest <= day < today && cfg.tolerance >= 0
    requires forall e :: p(e) ==> e.entity in entities
    requires forall e :: q(e) <==> DayOf(e) == day && p(e)
    ensures Filter(p, OnDay(Fetch(history, entities, earliest, today, cfg), day)) == Filter(q, history)
  {
  }

  ghost predicate Involves(entities: set<string>, slots: seq<Slot>) {
    forall i :: 0 <= i < |slots| ==> slots[i].entity in entities
  }

  /** Matching agrees with the whole history at these fires. */
  ghost predicate AgreesAt(isPair: bool, slot: Slot, fires: seq<int>, history: seq<Event>, entities: set<string>,
                           earliest: int, today: int, day: int, cfg: Config) {
    forall m :: m in fires ==>
      (MatchedBy(isPair, Candidates(history, slot, day, entities, earliest, today, cfg), m, cfg)
       <==> TrueMatch(isPair, history, slot, day, m, cfg))
  }

  /** Then the pipeline's three counters equal those of the quadratic reference. */
  lemma {:induction false} TallyIsExact(isPair: bool, slots: seq<Slot>, fires: seq<int>, history: seq<Event>,
                                        entities: set<string>, earliest: int, today: int, day: int, cfg: Config)
    requires earliest <= day < today && Involves(entities, slots) && cfg.tolerance >= 0
    requires forall i :: 0 <= i < |slots| ==>
        AgreesAt(isPair, slots[i], fires, history, entities, earliest, today, day, cfg)
    ensures var rows := Fetch(history, entities, earliest, today, cfg);
            Tally(isPair, slots, day, fires, OnDay(rows, day), Adjacent(rows, day, cfg.tolerance), cfg)
              == TrueTally(isPair, slots, day, fires, history, cfg)
    decreases |slots|
  {
    hide AgreesAt;
    if slots != [] {
      var l := |slots| - 1;
      TallyIsExact(isPair, slots[..l], fires, history, entities, earliest, today, day, cfg);
      SlotIsExact(isPair, slots[l], fires, history, entities, earliest, today, day, cfg);
    }
  }

  lemma SlotIsExact(isPair: bool, slot: Slot, fires: seq<int>, history: seq<Event>, entities: set<string>,
                    earliest: int, today: int, day: int, cfg: Config)
    requires earliest <= day < today && slot.entity in entities && cfg.tolerance >= 0
    requires AgreesAt(isPair, slot, fires, history, entities, earliest, today, day, cfg)
    ensures var rows := Fetch(history, entities, earliest, today, cfg);
            && CountMatched(isPair, fires, MatchCandidates(slot, day, OnDay(rows, day),
                                                           Adjacent(rows, day, cfg.tolerance)), cfg)
               == |Filter((m: int) => TrueMatch(isPair, history, slot, day, m, cfg), fires)|
            && Human(OnDay(rows, day), slot) == Filter((e: Event) => DayOf(e) == day && IsHuman(e, slot), history)
  {
    var cs := Candidates(history, slot, day, entities, earliest, today, cfg);
    FilterSame((m: int) => MatchedBy(isPair, cs, m, cfg), (m: int) => TrueMatch(isPair, history, slot, day, m, cfg),
        fires);
    BucketIsComplete((e: Event) => IsHuman(e, slot), (e: Event) => DayOf(e) == day && IsHuman(e, slot),
                     history, entities, earliest, today, day, cfg);
  }

  lemma FireTimes(history: seq<Event>, entity: string, to: string, entities: set<string>, earliest: int, today: int,
                  day: int, cfg: Config)
    requires entity in entities && earliest <= day < today && cfg.tolerance >= 0
    ensures var rows := OnDay(Fetch(history, entities, earliest, today, cfg), day);
            var fired := ChangesTo(history, entity, to, day);
            && Filter((e: Event) => Triggers(e, entity, to), rows) == fired
            && Map(SecOfDay, fired) == Map((e: Event) => Offset(e, day), fired)
            && forall m :: m in Map(SecOfDay, fired) ==> 0 <= m < DAY
  {
    var onDay := (e: Event) => e.time / MICRO / DAY == day && e.entity == entity && e.state == to;
    BucketIsComplete((e: Event) => Triggers(e, entity, to), onDay, history, entities, earliest, today, day, cfg);
    var fired := Filter(onDay, history);
    forall i | 0 <= i < |fired| ensures SecOfDay(fired[i]) == Offset(fired[i], day) && 0 <= SecOfDay(fired[i]) < DAY {
      FilterMembers(onDay, history, fired[i]);
      OffsetOfDay(fired[i], day);
    }
  }

  /** The whole score of a state-triggered pair proposal equals the reference that
      looks at the complete history. */
  lemma PairScoreIsExact(a: Automation, day: int, calendar: Calendar, history: seq<Event>, entities: set<string>,
                         earliest: int, today: int, cfg: Config)
    requires a.trigger.StateTrigger? && a.trigger.entity in entities && earliest <= day < today
    requires Slots(a.actions).Some? ==> Involves(entities, Slots(a.actions).value)
    requires cfg.pairWindow <= cfg.tolerance && cfg.pairWindow <= DAY && cfg.tolerance >= 0
    ensures Pipeline(a, true, day, calendar, history, entities, earliest, today, cfg)
        == PairScore(a, day, history, cfg)
  {
    hide Slots, MatchedBy, FollowedBy, Candidates;
    FireTimes(history, a.trigger.entity, a.trigger.to, entities, earliest, today, day, cfg);
    if Slots(a.actions).Some? {
      var rows := OnDay(Fetch(history, entities, earliest, today, cfg), day);
      var fires := Map(SecOfDay, Filter((e: Event) => Triggers(e, a.trigger.entity, a.trigger.to), rows));
      var slots := Slots(a.actions).value;
      forall i, m | 0 <= i < |slots| && m in fires
        ensures MatchedBy(true, Candidates(history, slots[i], day, entities, earliest, today, cfg), m, cfg)
           <==> TrueMatch(true, history, slots[i], day, m, cfg)
      {
        PairMatchIsExact(m, history, slots[i], day, entities, earliest, today, cfg);
      }
      TallyIsExact(true, slots, fires, history, entities, earliest, today, day, cfg);
    }
  }

  /** The condition on the window is needed: with a wider one, yesterday's last
      second has a follower that is never looked at. */
  lemma WiderWindowMisses(slot: Slot, entities: set<string>, earliest: int, today: int, cfg: Config) returns (e: Event)
    requires slot.entity in entities && earliest < today && cfg.tolerance >= 0
    requires cfg.pairWindow > cfg.tolerance || cfg.pairWindow > DAY
    ensures FollowedBy([e], slot, today - 1, DAY - 1, cfg.pairWindow)
    ensures !MatchedBy(true, Candidates([e], slot, today - 1, entities, earliest, today, cfg), DAY - 1, cfg)
  {
    var second := (today - 1) * DAY + DAY - 1 + cfg.pairWindow;
    e := Event(second * MICRO, slot.entity, slot.state, "manual");
    assert Second(e) == second;
    assert e in [e] && IsHuman(e, slot);
    OffsetOfDay(e, today - 1);
    SecondBounds(e, earliest * DAY - cfg.tolerance, today * DAY + cfg.tolerance);
    forall x | x in [e] ensures !IsCandidate(x, [e], slot, today - 1, entities, earliest, today, cfg) {
      assert x == e;
    }
    MatchedMeans(true, DAY - 1, [e], slot, today - 1, entities, earliest, today, cfg);
  }

  ghost predicate PairsExact(slot: Slot, entities: set<string>, earliest: int, today: int, cfg: Config) {
    forall history: seq<Event>, day: int, fire: int :: 0 <= fire < DAY && earliest <= day < today ==>
      (MatchedBy(true, Candidates(history, slot, day, entities, earliest, today, cfg), fire, cfg) <==>
       FollowedBy(history, slot, day, fire, cfg.pairWindow))
  }

  /** Pair matching agrees with the unbounded history, for every history, day and fire,
      if and only if the window exceeds neither the tolerance nor one day. */
  lemma PairMatchExactIff(slot: Slot, entities: set<string>, earliest: int, today: int, cfg: Config)
    requires slot.entity in entities && earliest < today && cfg.tolerance >= 0
    ensures PairsExact(slot, entities, earliest, today, cfg)
        <==> cfg.pairWindow <= cfg.tolerance && cfg.pairWindow <= DAY
  {
    hide MatchedBy, FollowedBy, Candidates;
    if cfg.pairWindow <= cfg.tolerance && cfg.pairWindow <= DAY {
      forall history: seq<Event>, day: int, fire: int | 0 <= fire < DAY && earliest <= day < today
        ensures MatchedBy(true, Candidates(history, slot, day, entities, earliest, today, cfg), fire, cfg)
           <==> FollowedBy(history, slot, day, fire, cfg.pairWindow)
      {
        PairMatchIsExact(fire, history, slot, day, entities, earliest, today, cfg);
      }
    } else {
      var e := WiderWindowMisses(slot, entities, earliest, today, cfg);
    }
  }

  // ------------------------------------------------------------ time and sun

  /** Nothing is missed: a human event within the tolerance in real time always
      matches a fire inside the day. */
  lemma NothingIsMissed(fire: int, history: seq<Event>, slot: Slot, day: int, entities: set<string>, earliest: int,
                        today: int, cfg: Config)
    requires 0 <= fire < DAY && slot.entity in entities && earliest <= day < today && 0 <= cfg.tolerance <= DAY
    requires NearInTime(history, slot, day, fire, cfg.tolerance)
    ensures MatchedBy(false, Candidates(history, slot, day, entities, earliest, today, cfg), fire, cfg)
  {
    var e :| e in history && IsHuman(e, slot) && Abs(Offset(e, day) - fire) <= cfg.tolerance;
    OffsetOfDay(e, day);
    FetchedAround(e, entities, earliest, today, day, cfg);
    RelativeIsOffset(e, day);
    DistFromOffset(RelativeSecond(e, day), fire, 0, cfg.tolerance);
    assert IsCandidate(e, history, slot, day, entities, earliest, today, cfg);
    MatchedMeans(false, fire, history, slot, day, entities, earliest, today, cfg);
  }

  /** Far enough from both midnights. Of the day after the last scored day, only the
      seconds before the tolerance have been fetched: one second fewer to stay clear of. */
  predicate ClearOfMidnight(fire: int, day: int, today: int, tolerance: int) {
    && fire < DAY - 2 * tolerance
    && if day + 1 < today then 2 * tolerance < fire else 2 * tolerance <= fire
  }

  /** Away from midnight the circular window is real time. */
  lemma MiddayIsExact(fire: int, history: seq<Event>, slot: Slot, day: int, entities: set<string>, earliest: int,
                      today: int, cfg: Config)
    requires 0 <= cfg.tolerance && day < today && ClearOfMidnight(fire, day, today, cfg.tolerance)
    requires MatchedBy(false, Candidates(history, slot, day, entities, earliest, today, cfg), fire, cfg)
    ensures NearInTime(history, slot, day, fire, cfg.tolerance)
  {
    MatchedMeans(false, fire, history, slot, day, entities, earliest, today, cfg);
    var e :| IsCandidate(e, history, slot, day, entities, earliest, today, cfg)
             && InWindow(false, RelativeSecond(e, day), fire, cfg);
    RelativeIsOffset(e, day);
    OffsetOfDay(e, day);
    SecondBounds(e, earliest * DAY - cfg.tolerance, today * DAY + cfg.tolerance);
    MiddayDist(RelativeSecond(e, day), fire, cfg.tolerance);
  }

  lemma MiddayDist(x: int, fire: int, tolerance: nat)
    requires 0 <= x + tolerance && x <= DAY + tolerance && fire < DAY - 2 * tolerance
    requires 2 * tolerance < fire || (2 * tolerance == fire && x < DAY + tolerance)
    requires Dist(x, fire) <= tolerance
    ensures Abs(x - fire) <= tolerance
  {
    DistIsLeast(x, fire, 0);
    var n: int :| Dist(x, fire) == Abs(x - fire + n * DAY);
    assert n <= -1 || n == 0 || n >= 1;
  }

  /** A human event `offset` seconds from the day's midnight takes part in its matching. */
  predicate Reaches(offset: int, day: int, today: int, tolerance: int) {
    && -DAY <= offset < 2 * DAY && -tolerance <= offset <= DAY + tolerance
    && (day + 1 < today || offset < DAY + tolerance)
  }

  function HumanAt(slot: Slot, day: int, offset: int): Event {
    Event((day * DAY + offset) * MICRO, slot.entity, slot.state, "manual")
  }

  lemma HumanAtOffset(slot: Slot, day: int, offset: int)
    ensures var e := HumanAt(slot, day, offset);
            IsHuman(e, slot) && Offset(e, day) == offset && Second(e) == day * DAY + offset
  {
  }

  lemma OnlyHuman(slot: Slot, day: int, offset: int, fire: int, entities: set<string>, earliest: int, today: int,
                  cfg: Config)
    requires slot.entity in entities && earliest <= day < today && cfg.tolerance >= 0
    ensures var e := HumanAt(slot, day, offset);
            && (NearInTime([e], slot, day, fire, cfg.tolerance) <==> Abs(offset - fire) <= cfg.tolerance)
            && (MatchedBy(false, Candidates([e], slot, day, entities, earliest, today, cfg), fire, cfg)
                <==> Reaches(offset, day, today, cfg.tolerance) && Dist(offset, fire) <= cfg.tolerance)
  {
    hide Dist, Candidates, MatchedBy;
    var e := HumanAt(slot, day, offset);
    HumanAtOffset(slot, day, offset);
    OffsetOfDay(e, day);
    ReachesIsConsidered(slot, day, offset, entities, earliest, today, cfg);
    assert e in [e];
    MatchedMeans(false, fire, [e], slot, day, entities, earliest, today, cfg);
    if Considered(e, day, cfg.tolerance) {
      RelativeIsOffset(e, day);
    }
  }

  lemma ReachesIsConsidered(slot: Slot, day: int, offset: int, entities: set<string>, earliest: int, today: int,
                            cfg: Config)
    requires slot.entity in entities && earliest <= day < today && cfg.tolerance >= 0
    ensures var e := HumanAt(slot, day, offset);
            Fetches(e, entities, earliest, today, cfg) && Considered(e, day, cfg.tolerance)
            <==> Reaches(offset, day, today, cfg.tolerance)
  {
    var e := HumanAt(slot, day, offset);
    HumanAtOffset(slot, day, offset);
    OffsetOfDay(e, day);
    SecondBounds(e, earliest * DAY - cfg.tolerance, today * DAY + cfg.tolerance);
    assert day + 1 < today ==> (day + 2) * DAY <= today * DAY;
  }

  /** An event that tells the circular window from real time, if the fire is near midnight
      or, as a sun trigger's can be, beyond it. */
  function Misleading(fire: int, day: int, today: int, t: int): int {
    if !(0 <= fire < DAY) then
      if t < DAY then fire % DAY else if fire < 0 then fire - t else fire + t
    else if 2 * t < DAY then
      if fire < t then DAY
      else if fire <= 2 * t && (day + 1 < today || fire < 2 * t) then DAY + fire - t
      else if fire < DAY - t then -t
      else fire - DAY
    else if t <= DAY then
      if fire > 0 then -t else DAY + t - 1
    else if t > DAY + fire then fire - t
    else if fire + t >= 2 * DAY then fire + t
    else if t < DAY + fire then -DAY
    else 2 * DAY - 1
  }

  lemma TellsInside(fire: int, day: int, today: int, t: int)
    requires 0 <= fire < DAY && t >= 0 && !ClearOfMidnight(fire, day, today, t)
    ensures var offset := Misleading(fire, day, today, t);
            Reaches(offset, day, today, t) && Dist(offset, fire) <= t <==> Abs(offset - fire) > t
  {
    hide Dist;
    var offset := Misleading(fire, day, today, t);
    if 2 * t < DAY {
      DistFromOffset(offset, fire, if offset >= DAY then -1 else 1, t);
    } else {
      DistAtMostHalf(offset, fire);
    }
  }

  lemma TellsOutside(fire: int, day: int, today: int, t: int)
    requires !(0 <= fire < DAY) && t >= 0
    ensures var offset := Misleading(fire, day, today, t);
            Reaches(offset, day, today, t) && Dist(offset, fire) <= t <==> Abs(offset - fire) > t
  {
    if t < DAY {
      var q := fire / DAY;
      assert fire % DAY - fire + q * DAY == 0;
      DistFromOffset(fire % DAY, fire, q, 0);
    }
  }

  /** Close to midnight an event of the wrong day, at the right clock time, matches; with
      a tolerance beyond a day, an event of the right time can also go unseen. */
  lemma WrongDayMatches(fire: int, slot: Slot, day: int, entities: set<string>, earliest: int, today: int, cfg: Config)
    requires slot.entity in entities && earliest <= day < today
    requires 0 <= cfg.tolerance && !ClearOfMidnight(fire, day, today, cfg.tolerance)
    ensures var e := HumanAt(slot, day, Misleading(fire, day, today, cfg.tolerance));
            MatchedBy(false, Candidates([e], slot, day, entities, earliest, today, cfg), fire, cfg)
            <==> !NearInTime([e], slot, day, fire, cfg.tolerance)
  {
    hide Dist, Misleading, MatchedBy, Candidates, NearInTime;
    OnlyHuman(slot, day, Misleading(fire, day, today, cfg.tolerance), fire, entities, earliest, today, cfg);
    if 0 <= fire < DAY {
      TellsInside(fire, day, today, cfg.tolerance);
    } else {
      TellsOutside(fire, day, today, cfg.tolerance);
    }
  }

  ghost predicate AlwaysExact(fire: int, slot: Slot, day: int, entities: set<string>, earliest: int, today: int,
                              cfg: Config) {
    forall history: seq<Event> ::
      (MatchedBy(false, Candidates(history, slot, day, entities, earliest, today, cfg), fire, cfg) <==>
       NearInTime(history, slot, day, fire, cfg.tolerance))
  }

  /** A time or sun fire is matched exactly by the human events within the tolerance, for
      every history, if and only if it stays more than twice the tolerance away from both
      midnights (at least twice from the first one on the last scored day). */
  lemma ClockMatchExactIff(fire: int, slot: Slot, day: int, entities: set<string>, earliest: int, today: int,
                           cfg: Config)
    requires slot.entity in entities && earliest <= day < today && 0 <= cfg.tolerance
    ensures AlwaysExact(fire, slot, day, entities, earliest, today, cfg)
       <==> ClearOfMidnight(fire, day, today, cfg.tolerance)
  {
    hide Candidates, MatchedBy;
    if ClearOfMidnight(fire, day, today, cfg.tolerance) {
      forall history: seq<Event>
        ensures MatchedBy(false, Candidates(history, slot, day, entities, earliest, today, cfg), fire, cfg)
           <==> NearInTime(history, slot, day, fire, cfg.tolerance)
      {
        if NearInTime(history, slot, day, fire, cfg.tolerance) {
          NothingIsMissed(fire, history, slot, day, entities, earliest, today, cfg);
        }
        if MatchedBy(false, Candidates(history, slot, day, entities, earliest, today, cfg), fire, cfg) {
          MiddayIsExact(fire, history, slot, day, entities, earliest, today, cfg);
        }
      }
    } else {
      WrongDayMatches(fire, slot, day, entities, earliest, today, cfg);
    }
  }

  // ---------------------------------------------------- the whole clock score

  /** A clock automation's fires do not depend on the day's events. */
  lemma ClockFires(t: Trigger, conditions: seq<Condition>, calendar: Calendar, dayEvents: seq<Event>)
    requires !t.StateTrigger?
    ensures FireSeconds(t, conditions, calendar, dayEvents) == DueSeconds(t, conditions, calendar)
    ensures var fires := DueSeconds(t, conditions, calendar); fires.Some? ==> |fires.value| <= 1
  {
    assert PassesConditions(conditions, calendar.weekday) <==> !LeftOut(conditions, calendar.weekday);
  }

  ghost predicate AllClear(fires: seq<int>, day: int, today: int, tolerance: int) {
    forall i :: 0 <= i < |fires| ==> ClearOfMidnight(fires[i], day, today, tolerance)
  }

  /** With fires clear of both midnights the whole score of a time- or sun-triggered
      proposal is the one read off real time. */
  lemma ClockScoreIsExact(a: Automation, day: int, calendar: Calendar, history: seq<Event>, entities: set<string>,
                          earliest: int, today: int, cfg: Config)
    requires !a.trigger.StateTrigger? && earliest <= day < today && cfg.tolerance >= 0
    requires Slots(a.actions).Some? ==> Involves(entities, Slots(a.actions).value)
    requires var fires := DueSeconds(a.trigger, a.conditions, calendar);
             fires.Some? ==> AllClear(fires.value, day, today, cfg.tolerance)
    ensures Pipeline(a, false, day, calendar, history, entities, earliest, today, cfg)
        == ClockScore(a, day, calendar, history, cfg)
  {
    hide Slots, FireSeconds, DueSeconds, MatchedBy, NearInTime, Candidates, ClearOfMidnight;
    ClockFires(a.trigger, a.conditions, calendar, OnDay(Fetch(history, entities, earliest, today, cfg), day));
    var fires := DueSeconds(a.trigger, a.conditions, calendar);
    if fires.Some? && Slots(a.actions).Some? {
      var slots := Slots(a.actions).value;
      forall i, m | 0 <= i < |slots| && m in fires.value
        ensures MatchedBy(false, Candidates(history, slots[i], day, entities, earliest, today, cfg), m, cfg)
           <==> TrueMatch(false, history, slots[i], day, m, cfg)
      {
        ClockMatchExactIff(m, slots[i], day, entities, earliest, today, cfg);
      }
      TallyIsExact(false, slots, fires.value, history, entities, earliest, today, day, cfg);
    }
  }

  /** One event that one slot of the list sees differently makes the scores differ. */
  lemma {:induction false} ScoresDiffer(slots: seq<Slot>, slot: Slot, day: int, offset: int, fire: int,
                                        entities: set<string>, earliest: int, today: int, cfg: Config)
    requires earliest <= day < today && Involves(entities, slots) && slot.entity in entities && cfg.tolerance >= 0
    requires MatchedBy(false, Candidates([HumanAt(slot, day, offset)], slot, day, entities, earliest, today, cfg),
                       fire, cfg)
        <==> !NearInTime([HumanAt(slot, day, offset)], slot, day, fire, cfg.tolerance)
    ensures var e := HumanAt(slot, day, offset);
            var rows := Fetch([e], entities, earliest, today, cfg);
            var s := Tally(false, slots, day, [fire], OnDay(rows, day), Adjacent(rows, day, cfg.tolerance), cfg);
            var r := TrueTally(false, slots, day, [fire], [e], cfg);
            if NearInTime([e], slot, day, fire, cfg.tolerance)
            then s.humanMatches <= r.humanMatches && (slot in slots ==> s.humanMatches < r.humanMatches)
            else s.humanMatches >= r.humanMatches && (slot in slots ==> s.humanMatches > r.humanMatches)
    decreases |slots|
  {
    hide MatchedBy, NearInTime, Candidates, OnDay, Adjacent, Fetch;
    if slots != [] {
      var l := |slots| - 1;
      ScoresDiffer(slots[..l], slot, day, offset, fire, entities, earliest, today, cfg);
      assert slots == slots[..l] + [slots[l]];
      SlotSees(slot, slots[l], day, offset, fire, entities, earliest, today, cfg);
    }
  }

  lemma SlotSees(slot: Slot, other: Slot, day: int, offset: int, fire: int, entities: set<string>, earliest: int,
                 today: int, cfg: Config)
    requires earliest <= day < today && slot.entity in entities && cfg.tolerance >= 0
    ensures var e := HumanAt(slot, day, offset);
            var rows := Fetch([e], entities, earliest, today, cfg);
            var cs := Candidates([e], slot, day, entities, earliest, today, cfg);
            && CountMatched(false, [fire], MatchCandidates(other, day, OnDay(rows, day),
                                                           Adjacent(rows, day, cfg.tolerance)), cfg)
               == (if other == slot && MatchedBy(false, cs, fire, cfg) then 1 else 0)
            && |Filter((m: int) => TrueMatch(false, [e], other, day, m, cfg), [fire])|
               == if other == slot && NearInTime([e], slot, day, fire, cfg.tolerance) then 1 else 0
  {
    var e := HumanAt(slot, day, offset);
    var cs := Candidates([e], other, day, entities, earliest, today, cfg);
    HumanAtOffset(slot, day, offset);
    MatchedMeans(false, fire, [e], other, day, entities, earliest, today, cfg);
    FilterOne((m: int) => MatchedBy(false, cs, m, cfg), fire);
    FilterOne((m: int) => TrueMatch(false, [e], other, day, m, cfg), fire);
    assert forall x :: x in [e] ==> x == e;
    assert IsHuman(e, other) <==> other == slot;
  }

  lemma FilterOne<T>(p: T -> bool, x: T)
    ensures Filter(p, [x]) == if p(x) then [x] else []
    ensures Filter(p, []) == []
  {
  }

  ghost predicate ClockScoreExact(a: Automation, day: int, calendar: Calendar, entities: set<string>, earliest: int,
                                  today: int, cfg: Config)
    requires !a.trigger.StateTrigger?
  {
    forall history: seq<Event> ::
      Pipeline(a, false, day, calendar, history, entities, earliest, today, cfg)
        == ClockScore(a, day, calendar, history, cfg)
  }

  /** A scored day of a time- or sun-triggered proposal is scored as in real time, for
      every history, if and only if it does not fire or fires clear of both midnights. */
  lemma ClockScoreExactIff(a: Automation, day: int, calendar: Calendar, entities: set<string>, earliest: int,
                           today: int, cfg: Config)
    requires !a.trigger.StateTrigger? && earliest <= day < today && cfg.tolerance >= 0
    requires DueSeconds(a.trigger, a.conditions, calendar).Some?
    requires Slots(a.actions).Some? && Slots(a.actions).value != [] && Involves(entities, Slots(a.actions).value)
    ensures ClockScoreExact(a, day, calendar, entities, earliest, today, cfg)
       <==> AllClear(DueSeconds(a.trigger, a.conditions, calendar).value, day, today, cfg.tolerance)
  {
    hide Slots, FireSeconds, DueSeconds, MatchedBy, NearInTime, Candidates, ClearOfMidnight, Pipeline, ClockScore;
    var fires, slots := DueSeconds(a.trigger, a.conditions, calendar).value, Slots(a.actions).value;
    if AllClear(fires, day, today, cfg.tolerance) {
      forall history: seq<Event>
        ensures Pipeline(a, false, day, calendar, history, entities, earliest, today, cfg)
             == ClockScore(a, day, calendar, history, cfg)
      {
        ClockScoreIsExact(a, day, calendar, history, entities, earliest, today, cfg);
      }
    } else {
      ClockFires(a.trigger, a.conditions, calendar, []);
      assert fires == [fires[0]] && !ClearOfMidnight(fires[0], day, today, cfg.tolerance);
      MisscoredDay(a, day, calendar, entities, earliest, today, cfg);
    }
  }

  lemma MisscoredDay(a: Automation, day: int, calendar: Calendar, entities: set<string>, earliest: int, today: int,
                     cfg: Config)
    requires !a.trigger.StateTrigger? && earliest <= day < today && cfg.tolerance >= 0
    requires DueSeconds(a.trigger, a.conditions, calendar).Some?
    requires Slots(a.actions).Some? && Slots(a.actions).value != [] && Involves(entities, Slots(a.actions).value)
    requires var fires := DueSeconds(a.trigger, a.conditions, calendar).value;
             |fires| == 1 && !ClearOfMidnight(fires[0], day, today, cfg.tolerance)
    ensures var fire := DueSeconds(a.trigger, a.conditions, calendar).value[0];
            var e := HumanAt(Slots(a.actions).value[0], day, Misleading(fire, day, today, cfg.tolerance));
            Pipeline(a, false, day, calendar, [e], entities, earliest, today, cfg)
              != ClockScore(a, day, calendar, [e], cfg)
  {
    hide Slots, FireSeconds, DueSeconds, MatchedBy, NearInTime, Candidates, ClearOfMidnight, Tally, TrueTally,
        Misleading;
    var fires, slots := DueSeconds(a.trigger, a.conditions, calendar).value, Slots(a.actions).value;
    var offset := Misleading(fires[0], day, today, cfg.tolerance);
    var e := HumanAt(slots[0], day, offset);
    ClockFires(a.trigger, a.conditions, calendar, OnDay(Fetch([e], entities, earliest, today, cfg), day));
    WrongDayMatches(fires[0], slots[0], day, entities, earliest, today, cfg);
    assert fires == [fires[0]] && slots[0] in slots;
    ScoresDiffer(slots, slots[0], day, offset, fires[0], entities, earliest, today, cfg);
  }

  /** Dropping fractions of a second loses no follower inside the window, and lets in
      none that is a full second early or a full second late. */
  lemma TruncationLosesNothing(fire: Event, e: Event, window: int)
    ensures 0 <= e.time - fire.time <= window * MICRO ==> 0 <= Second(e) - Second(fire) <= window
    ensures 0 <= Second(e) - Second(fire) <= window ==> -MICRO < e.time - fire.time < (window + 1) * MICRO
  {
  }
}
