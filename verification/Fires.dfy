/** When a stored automation would fire (src/pae/shadow/service.py, _fire_minutes and
    _day_passes_conditions), read off the scores of single days. */
module Fires {
  import opened Prelude
  import opened Circle
  import opened Schema
  import opened Shadow
  import opened Coverage
  import opened ProposalGroups
  import opened Proposer

  // ------------------------------------------------------ weekday conditions

  /** The automation fires on a day with this weekday and these sun times. */
  ghost predicate FiresOn(a: Automation, day: int, calendar: Calendar, cfg: Config) {
    var r := Evaluate(a, a.trigger.StateTrigger?, day, calendar, [], [], cfg);
    r.Scored? && r.score.expectedFires > 0
  }

  /** The sun times its trigger needs are known, and there is something to drive. */
  ghost predicate CanBeDue(a: Automation, calendar: Calendar) {
    && !a.trigger.StateTrigger? && (a.trigger.SunTrigger? ==> calendar.sun.Some?)
    && Slots(a.actions).Some? && Slots(a.actions).value != []
  }

  /** One expected fire per action and target, or none where a condition leaves the day out. */
  lemma ExpectedPerSlot(a: Automation, isPair: bool, day: int, calendar: Calendar, dayEvents: seq<Event>,
                        adjacent: seq<Event>, cfg: Config)
    requires CanBeDue(a, calendar)
    ensures var r := Evaluate(a, isPair, day, calendar, dayEvents, adjacent, cfg);
            && r.Scored?
            && r.score.expectedFires
               == if LeftOut(a.conditions, calendar.weekday) then 0 else |Slots(a.actions).value|
  {
    hide Slots, Tally, FireSeconds;
    ClockFires(a.trigger, a.conditions, calendar, dayEvents);
    var fires, slots := DueSeconds(a.trigger, a.conditions, calendar).value, Slots(a.actions).value;
    PrecisionAtMostOne(isPair, slots, day, fires, dayEvents, adjacent, cfg);
    OneMore(|slots|, 0);
  }

  /** Without conditions it fires every day. */
  lemma FiresEveryDay(a: Automation, day: int, calendar: Calendar, cfg: Config)
    requires CanBeDue(a, calendar) && a.conditions == []
    ensures FiresOn(a, day, calendar, cfg)
  {
    hide Slots, Evaluate;
    ExpectedPerSlot(a, false, day, calendar, [], [], cfg);
  }

  /** With one weekday condition it fires exactly on the weekdays listed. */
  lemma WeekdaysDecide(a: Automation, weekdays: set<string>, day: int, calendar: Calendar, cfg: Config)
    requires CanBeDue(a, calendar) && a.conditions == [TimeCondition(Some(weekdays))]
    ensures FiresOn(a, day, calendar, cfg) <==> calendar.weekday in weekdays
  {
    hide Slots, Evaluate;
    assert a.conditions[0] in a.conditions;
    ExpectedPerSlot(a, false, day, calendar, [], [], cfg);
  }

  /** Conditions that name no weekdays are stored, and not evaluated. */
  lemma OthersAreIgnored(a: Automation, c: Condition, day: int, calendar: Calendar, cfg: Config)
    requires CanBeDue(a, calendar) && a.conditions == [c] && (c.TimeCondition? ==> c.weekdays.None?)
    ensures FiresOn(a, day, calendar, cfg)
  {
    hide Slots, Evaluate;
    ExpectedPerSlot(a, false, day, calendar, [], [], cfg);
  }

  /** Conditions are a conjunction. */
  lemma ConditionsCombine(a: Automation, cs: seq<Condition>, ds: seq<Condition>, day: int, calendar: Calendar,
                          cfg: Config)
    requires CanBeDue(a, calendar)
    ensures FiresOn(a.(conditions := cs + ds), day, calendar, cfg)
       <==> FiresOn(a.(conditions := cs), day, calendar, cfg) && FiresOn(a.(conditions := ds), day, calendar, cfg)
  {
    hide Slots, Evaluate;
    ExpectedPerSlot(a.(conditions := cs + ds), false, day, calendar, [], [], cfg);
    ExpectedPerSlot(a.(conditions := cs), false, day, calendar, [], [], cfg);
    ExpectedPerSlot(a.(conditions := ds), false, day, calendar, [], [], cfg);
  }

  // ------------------------------------------------------------- the fire's time

  /** m is the trigger's clock time, or that day's sunrise or sunset plus its offset. */
  predicate IsTimeOf(t: Trigger, calendar: Calendar, m: int) {
    || t == TimeTrigger(m)
    || (calendar.sun.Some? && t == SunTrigger(Sunrise, m - calendar.sun.value.0))
    || (calendar.sun.Some? && t == SunTrigger(Sunset, m - calendar.sun.value.1))
  }

  /** A lone human event of the day matches exactly when its clock is within the tolerance
      of that time. */
  lemma FireTimeDecides(a: Automation, m: int, slot: Slot, x: int, day: int, calendar: Calendar, cfg: Config)
    requires CanBeDue(a, calendar) && IsTimeOf(a.trigger, calendar, m) && FiresOn(a, day, calendar, cfg)
    requires slot in Slots(a.actions).value && 0 <= x < DAY
    ensures var r := Evaluate(a, false, day, calendar, [HumanAt(slot, day, x)], [], cfg);
            r.Scored? && (r.score.humanMatches > 0 <==> Dist(x, m) <= cfg.tolerance)
  {
    hide Slots, Tally, FireSeconds, Dist;
    var e := HumanAt(slot, day, x);
    ExpectedPerSlot(a, false, day, calendar, [], [], cfg);
    ExpectedPerSlot(a, false, day, calendar, [e], [], cfg);
    ClockFires(a.trigger, a.conditions, calendar, [e]);
    assert DueSeconds(a.trigger, a.conditions, calendar) == Some([m]);
    OneEventSeen(Slots(a.actions).value, slot, day, x, m, cfg);
  }

  lemma {:induction false} OneEventSeen(slots: seq<Slot>, slot: Slot, day: int, x: int, m: int, cfg: Config)
    requires 0 <= x < DAY
    ensures Tally(false, slots, day, [m], [HumanAt(slot, day, x)], [], cfg).humanMatches > 0
       <==> slot in slots && Dist(x, m) <= cfg.tolerance
  {
    hide Dist, MatchCandidates, MatchedBy;
    if slots != [] {
      var l := |slots| - 1;
      OneEventSeen(slots[..l], slot, day, x, m, cfg);
      assert slots == slots[..l] + [slots[l]];
      SlotSeesOne(slot, slots[l], day, x, m, cfg);
    }
  }

  lemma SlotSeesOne(slot: Slot, other: Slot, day: int, x: int, m: int, cfg: Config)
    requires 0 <= x < DAY
    ensures CountMatched(false, [m], MatchCandidates(other, day, [HumanAt(slot, day, x)], []), cfg)
         == if other == slot && Dist(x, m) <= cfg.tolerance then 1 else 0
  {
    hide Dist;
    var e := HumanAt(slot, day, x);
    HumanAtOffset(slot, day, x);
    OffsetOfDay(e, day);
    FilterOne((y: Event) => IsHuman(y, other), e);
    var cs := MatchCandidates(other, day, [e], []);
    assert cs == if other == slot then [x] else [];
    FilterOne((f: int) => MatchedBy(false, cs, f, cfg), m);
    assert other == slot ==> (InWindow(false, cs[0], m, cfg) <==> Dist(x, m) <= cfg.tolerance);
  }

  // ------------------------------------------------------------ drafts that ship

  /** A drafted event pair fires, on any history and day, exactly when its mined trigger
      entity changes to its mined state. */
  lemma PairDraftFires(n: Night, i: nat, history: seq<Event>, day: int, calendar: Calendar, entities: set<string>,
                       earliest: int, today: int, cfg: Config)
    requires i < |n.groups| && OutcomeAt(n, i).Drafted? && n.groups[i].PairGroup?
    requires n.groups[i].trigger in entities && earliest <= day < today && cfg.tolerance >= 0
    ensures var a, g := OutcomeAt(n, i).draft.automation, n.groups[i];
            && a.trigger == StateTrigger(g.trigger, g.triggerState)
            && FireSeconds(a.trigger, a.conditions, calendar,
                           OnDay(Fetch(history, entities, earliest, today, cfg), day))
               == Some(Map((e: Event) => Offset(e, day), ChangesTo(history, g.trigger, g.triggerState, day)))
  {
    hide OutcomeAt, Valid, Fetch, OnDay, ChangesTo, Map;
    var a, g := OutcomeAt(n, i).draft.automation, n.groups[i];
    DraftIsMined(n, i);
    StateFires(a.trigger, a.conditions, calendar, OnDay(Fetch(history, entities, earliest, today, cfg), day));
    FireTimes(history, g.trigger, g.triggerState, entities, earliest, today, day, cfg);
  }

  lemma DraftIsMined(n: Night, i: nat)
    requires i < |n.groups| && OutcomeAt(n, i).Drafted?
    ensures TriggerIsMined(OutcomeAt(n, i).draft.automation.trigger, AsMined(n.groups[i]), n.sky, n.grace)
    ensures n.groups[i].PairGroup? ==>
              OutcomeAt(n, i).draft.automation.trigger == StateTrigger(n.groups[i].trigger, n.groups[i].triggerState)
    ensures n.groups[i].TodGroup? ==> AsMined(n.groups[i]).mean == n.groups[i].mean
  {
    hide OutcomeAt, Valid;
    DraftSays(n, i);
    var c: Content :| Acceptable(c, n.groups[i], n) && LastReply(n, i) == Answer(c);
    ValidIff(c.automation.value, AsMined(n.groups[i]), n.domains, n.sky, n.grace);
  }

  /** A drafted time of day is due, on the day it was validated for, within the grace of the
      mined mean; where the sun does not rise, a sun trigger is not checked. */
  lemma TodDraftIsDue(n: Night, i: nat, weekday: string)
    requires i < |n.groups| && OutcomeAt(n, i).Drafted? && n.groups[i].TodGroup?
    ensures var a := OutcomeAt(n, i).draft.automation;
            && !a.trigger.StateTrigger? && (a.trigger.SunTrigger? ==> n.sky.enabled)
            && var due := DueSeconds(a.trigger, a.conditions, Calendar(weekday, n.sky.today));
               match due
               case None => a.trigger.SunTrigger? && n.sky.today.None?
               case Some(fires) => forall m :: m in fires ==> Dist(m, n.groups[i].mean) <= n.grace
  {
    hide OutcomeAt, Valid, Dist;
    DraftIsMined(n, i);
  }

  /** The state each call is expected to bring about. */
  function StateAfter(name: string): string {
    if name == "turn_on" then "on"
    else if name == "turn_off" then "off"
    else if name == "lock" then "locked"
    else if name == "unlock" then "unlocked"
    else if name == "open_cover" then "open"
    else "closed"
  }

  /** Every call is scored against the state it brings about. */
  lemma CallsAreScored(domain: string, name: string)
    requires (domain, name) in CALLS
    ensures ExpectedState(domain + ['.'] + name) == Some(StateAfter(name))
  {
    DomainsAreDotless(domain, name);
    SplitJoins(domain, name);
  }
}
