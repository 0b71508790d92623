/** Eligibility gates (src/pae/proposer/gates.py): which stored patterns the
    proposer may build on. */
module Gates {
  import opened Prelude
  import opened PatternKeys

  /** What depends on the kind of a stored pattern. Clock times are in seconds. */
  datatype Kind =
    | TimeOfDay(dayType: Option<string>, tod: int, std: Option<real>, consistency: Option<real>)
    | EventPair(trigger: string, triggerState: string)
    | OtherKind

  datatype Pattern = Pattern(
    key: Key, kind: Kind, entity: string, action: string, suspectedSchedule: bool, status: Status,
    occurrences: int, support: real, confidence: real, lift: real, daysObserved: int)

  datatype Limits = Limits(
    todMinConsistency: real, todMaxStd: real, todMinSupport: real, todMinDays: int,
    minOccurrences: int, pairMinConfidence: real, pairMinLift: real)

  /** An entity with any suspected-schedule time-of-day pattern is off-limits everywhere. */
  function SchedFlagged(patterns: seq<Pattern>): set<string> {
    set i | 0 <= i < |patterns| && patterns[i].kind.TimeOfDay? && patterns[i].suspectedSchedule :: patterns[i].entity
  }

  /** Registered, and not driven by a schedule. */
  predicate Clear(entity: string, flagged: set<string>, registry: set<string>) {
    entity in registry && entity !in flagged
  }

  predicate StrongEnough(p: Pattern, l: Limits) {
    match p.kind
    case TimeOfDay(_, _, std, consistency) =>
      && consistency.Some? && consistency.value >= l.todMinConsistency
      && std.Some? && std.value <= l.todMaxStd
      && p.support >= l.todMinSupport && p.daysObserved >= l.todMinDays
    case EventPair(_, _) => p.confidence >= l.pairMinConfidence && p.lift >= l.pairMinLift
    case OtherKind => false
  }

  /** Everything a pattern must satisfy before the model may be asked about it. */
  predicate Eligible(p: Pattern, flagged: set<string>, registry: set<string>, l: Limits) {
    && !p.suspectedSchedule && p.status != Rejected
    && Clear(p.entity, flagged, registry)
    && (p.kind.EventPair? ==> Clear(p.kind.trigger, flagged, registry))
    && p.occurrences >= l.minOccurrences && StrongEnough(p, l)
  }

  function EligibleOf(patterns: seq<Pattern>, registry: set<string>, l: Limits): seq<Pattern> {
    Filter((p: Pattern) => Eligible(p, SchedFlagged(patterns), registry, l), patterns)
  }

  /** The guards in the order the source tries them; true when the pattern is kept. */
  method PassesGates(p: Pattern, flagged: set<string>, registry: set<string>, l: Limits) returns (kept: bool)
    ensures kept <==> Eligible(p, flagged, registry, l)
  {
    if p.suspectedSchedule || p.status == Rejected {
      return false;
    }
    if p.entity in flagged || p.entity !in registry {
      return false;
    }
    if p.occurrences < l.minOccurrences {
      return false;
    }
    match p.kind {
      case TimeOfDay(_, _, std, consistency) =>
        if consistency.None? || consistency.value < l.todMinConsistency {
          return false;
        }
        if std.None? || std.value > l.todMaxStd {
          return false;
        }
        if p.support < l.todMinSupport || p.daysObserved < l.todMinDays {
          return false;
        }
      case EventPair(trigger, _) =>
        if trigger in flagged || trigger !in registry {
          return false;
        }
        if p.confidence < l.pairMinConfidence || p.lift < l.pairMinLift {
          return false;
        }
      case OtherKind =>
        return false;
    }
    return true;
  }

  method EligiblePatterns(patterns: seq<Pattern>, registry: set<string>, l: Limits) returns (out: seq<Pattern>)
    ensures out == EligibleOf(patterns, registry, l)
  {
    hide Eligible, SchedFlagged;
    var flagged := SchedFlagged(patterns);
    ghost var keep := (p: Pattern) => Eligible(p, SchedFlagged(patterns), registry, l);
    out := [];
    assert patterns[..0] == [];
    for i := 0 to |patterns|
      invariant out == Filter(keep, patterns[..i])
    {
      var p := patterns[i];
      FilterSnoc(keep, patterns[..i], p);
      assert patterns[..i + 1] == patterns[..i] + [p];
      var kept := PassesGates(p, flagged, registry, l);
      if kept {
        out := out + [p];
      }
    }
    assert patterns[..|patterns|] == patterns;
  }

  /** What the gates promise of a pattern they keep: it was not rejected, is on no schedule,
      touches registered entities only, none of them driven by a suspected schedule, and is
      strong enough for its kind. */
  ghost predicate Presentable(p: Pattern, patterns: seq<Pattern>, registry: set<string>, l: Limits) {
    && p in patterns && p.status != Rejected && !p.suspectedSchedule && p.occurrences >= l.minOccurrences
    && p.entity in registry && Unscheduled(p.entity, patterns)
    && (p.kind.EventPair? ==>
          p.kind.trigger in registry && Unscheduled(p.kind.trigger, patterns)
          && p.confidence >= l.pairMinConfidence && p.lift >= l.pairMinLift)
    && (p.kind.TimeOfDay? ==>
          p.kind.consistency.Some? && p.kind.std.Some?
          && p.kind.consistency.value >= l.todMinConsistency && p.kind.std.value <= l.todMaxStd
          && p.support >= l.todMinSupport && p.daysObserved >= l.todMinDays)
    && !p.kind.OtherKind?
  }

  ghost predicate Unscheduled(entity: string, patterns: seq<Pattern>) {
    forall q :: q in patterns && q.kind.TimeOfDay? && q.suspectedSchedule ==> q.entity != entity
  }

  /** The gates keep exactly the presentable patterns. */
  lemma EligibleIsSafe(patterns: seq<Pattern>, registry: set<string>, l: Limits, p: Pattern)
    ensures p in EligibleOf(patterns, registry, l) <==> Presentable(p, patterns, registry, l)
    ensures p in EligibleOf(patterns, registry, l)
        <==> p in patterns && Eligible(p, SchedFlagged(patterns), registry, l)
  {
    FilterMembers((p: Pattern) => Eligible(p, SchedFlagged(patterns), registry, l), patterns, p);
    forall e ensures e in SchedFlagged(patterns) <==> !Unscheduled(e, patterns) {
      if q :| q in patterns && q.kind.TimeOfDay? && q.suspectedSchedule && q.entity == e {
        var i :| 0 <= i < |patterns| && patterns[i] == q;
      }
    }
  }

  /** One more suspected schedule can only take patterns away from the others. */
  lemma FlaggingIsMonotone(patterns: seq<Pattern>, q: Pattern, registry: set<string>, l: Limits, p: Pattern)
    ensures p in EligibleOf(patterns + [q], registry, l) && p != q ==> p in EligibleOf(patterns, registry, l)
  {
    var more := patterns + [q];
    EligibleIsSafe(patterns, registry, l, p);
    EligibleIsSafe(more, registry, l, p);
    forall i | 0 <= i < |patterns| ensures more[i] == patterns[i] {
    }
  }
}
