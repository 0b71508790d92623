/** The pattern and proposal tables (src/pae/proposer/service.py run_proposing,
    src/pae/proposer/repo.py set_status): every UPDATE as one guarded map update, and
    what nights and operator decisions keep when each runs as one step. */
module Lifecycle {
  import opened ProposalGroups
  import P = PatternKeys
  import S = ShadowRuns

  // --------------------------------------------------------------- the tables

  datatype Proposal = Proposal(status: S.Status, sources: set<P.Key>, lastEligible: int)

  datatype Tables = Tables(patterns: map<P.Key, P.Status>, proposals: map<GroupKey, Proposal>)

  predicate LiveStatus(s: S.Status) { s == S.Shadowing || s == S.Approved }

  /** What one night decided from the statuses it read. */
  datatype Plan = Plan(
    live: set<GroupKey>, stale: set<GroupKey>, inserts: map<GroupKey, Proposal>, marks: set<P.Key>, now: int,
        cutoff: int)

  /** The present groups and the pattern keys of their members. */
  type Present = map<GroupKey, set<P.Key>>

  function Statuses(proposals: map<GroupKey, Proposal>): map<GroupKey, S.Status> {
    map k | k in proposals :: proposals[k].status
  }

  /** The plan fits the groups present and the statuses read. */
  ghost predicate Fits(plan: Plan, existing: map<GroupKey, S.Status>, groups: Present) {
    && (forall k :: k in plan.live <==> k in groups && k in existing && LiveStatus(existing[k]))
    && (forall k :: k in plan.stale <==> k in groups && k in existing && existing[k] == S.Stale)
    && (forall k :: k in plan.inserts ==>
          k in groups && k !in existing && plan.inserts[k] == Proposal(S.Shadowing, groups[k], plan.now))
    && (forall p :: p in plan.marks <==> exists k :: MarkedBy(plan, groups, k, p))
  }

  ghost predicate MarkedBy(plan: Plan, groups: Present, k: GroupKey, p: P.Key) {
    k in groups && p in groups[k] && (k in plan.inserts || k in plan.stale)
  }

  // ------------------------------------------------------------- the statements

  /** UPDATE proposals SET last_eligible_at WHERE group_key IN keys */
  function Touch(proposals: map<GroupKey, Proposal>, keys: set<GroupKey>, now: int): map<GroupKey, Proposal> {
    map k | k in proposals :: if k in keys then proposals[k].(lastEligible := now) else proposals[k]
  }

  /** UPDATE proposals SET shadowing WHERE group_key IN keys AND status = 'stale' */
  function Revive(proposals: map<GroupKey, Proposal>, keys: set<GroupKey>, now: int): map<GroupKey, Proposal> {
    map k | k in proposals ::
      if k in keys && proposals[k].status == S.Stale then proposals[k].(status := S.Shadowing, lastEligible := now)
      else proposals[k]
  }

  /** UPDATE patterns SET to WHERE pattern_key IN keys AND status = from */
  function Move(patterns: map<P.Key, P.Status>, keys: set<P.Key>, source: P.Status, target: P.Status): map<P.Key,
                P.Status> {
    map k | k in patterns :: if k in keys && patterns[k] == source then target else patterns[k]
  }

  /** SELECT ... WHERE status is live AND last_eligible_at < cutoff */
  function GoneStale(proposals: map<GroupKey, Proposal>, cutoff: int): set<GroupKey> {
    set k | k in proposals && LiveStatus(proposals[k].status) && proposals[k].lastEligible < cutoff
  }

  function SourcesOf(proposals: map<GroupKey, Proposal>, keys: set<GroupKey>): set<P.Key> {
    set k, p | k in keys && k in proposals && p in proposals[k].sources :: p
  }

  /** UPDATE proposals SET stale WHERE id IN keys: no status check. */
  function Sweep(proposals: map<GroupKey, Proposal>, keys: set<GroupKey>): map<GroupKey, Proposal> {
    map k | k in proposals :: if k in keys then proposals[k].(status := S.Stale) else proposals[k]
  }

  function WithStatus(proposals: map<GroupKey, Proposal>, k: GroupKey, status: S.Status): map<GroupKey, Proposal>
    requires k in proposals
  {
    proposals[k := proposals[k].(status := status)]
  }

  predicate Actionable(proposals: map<GroupKey, Proposal>, k: GroupKey) {
    k in proposals && (proposals[k].status == S.Shadowing || proposals[k].status == S.Stale)
  }

  // ---------------------------------------------------------------- whole steps

  function Upsert(patterns: map<P.Key, P.Status>, mined: set<P.Key>): map<P.Key, P.Status> {
    map k | k in patterns.Keys + mined :: if k in patterns then patterns[k] else P.New
  }

  function Decide(t: Tables, k: GroupKey, status: S.Status): Tables {
    if !Actionable(t.proposals, k) then t
    else Tables(if status == S.Rejected then Move(t.patterns, t.proposals[k].sources, P.Proposed, P.Rejected)
        else t.patterns,
                WithStatus(t.proposals, k, status))
  }

  function BeforeSweep(t: Tables, plan: Plan): Tables {
    Tables(Move(t.patterns, plan.marks, P.New, P.Proposed),
           Revive(Touch(t.proposals, plan.live, plan.now), plan.stale, plan.now) + plan.inserts)
  }

  function AfterSweep(t: Tables, cutoff: int): Tables {
    var gone := GoneStale(t.proposals, cutoff);
    Tables(Move(t.patterns, SourcesOf(t.proposals, gone), P.Proposed, P.New), Sweep(t.proposals, gone))
  }

  function AfterNight(t: Tables, plan: Plan): Tables { AfterSweep(BeforeSweep(t, plan), plan.cutoff) }

  /** The database session: each method is one transaction. */
  class Store {
    var patterns: map<P.Key, P.Status>
    var proposals: map<GroupKey, Proposal>

    ghost function Now(): Tables
      reads this
    {
      Tables(patterns, proposals)
    }

    constructor ()
      ensures Now() == Tables(map[], map[])
    {
      patterns, proposals := map[], map[];
    }

    /** Every mined pattern is stored, nothing is lost and no status changes; so patterns
        that were owned stay owned. */
    method UpsertPatterns(mined: set<P.Key>)
      modifies this
      ensures patterns.Keys == old(patterns.Keys) + mined && proposals == old(proposals)
      ensures forall k :: k in old(patterns) ==> patterns[k] == old(patterns)[k]
      ensures forall k :: k in mined && k !in old(patterns) ==> patterns[k] == P.New
      ensures Now() == Take(old(Now()), Mined(mined)) && (old(Owned(Now())) ==> Owned(Now()))
    {
      if Owned(Now()) {
        MiningKeepsOwned(Now(), mined);
      }
      patterns := map k | k in patterns.Keys + mined :: if k in patterns then patterns[k] else P.New;
    }

    /** set_status: False, and nothing changed, unless the proposal is shadowing or stale.
        Otherwise it alone gets the status, and a rejection takes along those of its sources
        that were proposed. */
    method SetStatus(k: GroupKey, status: S.Status) returns (flipped: bool)
      modifies this
      ensures flipped <==> k in old(proposals) && old(proposals)[k].status in {S.Shadowing, S.Stale}
      ensures !flipped ==> Now() == old(Now())
      ensures flipped ==> proposals == old(proposals)[k := old(proposals)[k].(status := status)]
      ensures patterns.Keys == old(patterns.Keys)
      ensures forall p :: p in patterns ==>
                patterns[p] == if flipped && status == S.Rejected && p in old(proposals)[k].sources
                                  && old(patterns)[p] == P.Proposed then P.Rejected else old(patterns)[p]
      ensures Now() == Decide(old(Now()), k, status)
    {
      if !Actionable(proposals, k) {
        return false;
      }
      proposals := WithStatus(proposals, k, status);
      if status == S.Rejected {
        patterns := Move(patterns, proposals[k].sources, P.Proposed, P.Rejected);
      }
      return true;
    }

    /** The table updates of run_proposing, statement by statement. */
    method ApplyPlan(plan: Plan) returns (staleMarked: nat)
      modifies this
      ensures Now() == AfterNight(old(Now()), plan)
      ensures staleMarked == |GoneStale(BeforeSweep(old(Now()), plan).proposals, plan.cutoff)|
    {
      hide BeforeSweep, AfterSweep;
      WriteDecisions(plan);
      staleMarked := SweepStale(plan.cutoff);
    }

    method WriteDecisions(plan: Plan)
      modifies this
      ensures Now() == BeforeSweep(old(Now()), plan)
    {
      hide Touch, Revive, Move, SourcesOf;
      NothingToUpdate(patterns, proposals, plan.now, P.New, P.Proposed);
      if plan.live != {} {
        proposals := Touch(proposals, plan.live, plan.now);
      }
      NothingToUpdate(patterns, proposals, plan.now, P.New, P.Proposed);
      if plan.stale != {} {
        proposals := Revive(proposals, plan.stale, plan.now);
      }
      if plan.inserts != map[] {
        proposals := proposals + plan.inserts;
      }
      if plan.marks != {} {
        patterns := Move(patterns, plan.marks, P.New, P.Proposed);
      }
    }

    /** The staleness sweep. */
    method SweepStale(cutoff: int) returns (staleMarked: nat)
      modifies this
      ensures Now() == AfterSweep(old(Now()), cutoff)
      ensures staleMarked == |GoneStale(old(proposals), cutoff)|
    {
      hide GoneStale, Sweep, Move, SourcesOf;
      var gone := GoneStale(proposals, cutoff);
      staleMarked := |gone|;
      NothingToUpdate(patterns, proposals, cutoff, P.Proposed, P.New);
      if gone != {} {
        var revert := SourcesOf(proposals, gone);
        proposals := Sweep(proposals, gone);
        if revert != {} {
          patterns := Move(patterns, revert, P.Proposed, P.New);
        }
      }
    }
  }

  /** The statements the source skips would have changed nothing. */
  lemma NothingToUpdate(patterns: map<P.Key, P.Status>, proposals: map<GroupKey, Proposal>, now: int,
                        source: P.Status, target: P.Status)
    ensures Touch(proposals, {}, now) == proposals && Revive(proposals, {}, now) == proposals
    ensures Sweep(proposals, {}) == proposals
    ensures Move(patterns, {}, source, target) == patterns && SourcesOf(proposals, {}) == {}
  {
  }

  // ----------------------------------------------------------- runs of whole steps

  datatype Step =
    | Mined(keys: set<P.Key>)
    | Decided(key: GroupKey, status: S.Status)
    | Proposed(plan: Plan, groups: Present)

  /** Operators approve or reject; a night acts on the statuses it finds. */
  ghost predicate Allowed(t: Tables, step: Step) {
    match step
    case Mined(_) => true
    case Decided(_, status) => status == S.Approved || status == S.Rejected
    case Proposed(plan, groups) => Fits(plan, Statuses(t.proposals), groups) && plan.cutoff <= plan.now
  }

  function Take(t: Tables, step: Step): Tables {
    match step
    case Mined(keys) => Tables(Upsert(t.patterns, keys), t.proposals)
    case Decided(k, status) => Decide(t, k, status)
    case Proposed(plan, _) => AfterNight(t, plan)
  }

  ghost predicate Run(t: Tables, steps: seq<Step>)
    decreases |steps|
  {
    steps != [] ==> Allowed(t, steps[0]) && Run(Take(t, steps[0]), steps[1..])
  }

  function End(t: Tables, steps: seq<Step>): Tables
    decreases |steps|
  {
    if steps == [] then t else End(Take(t, steps[0]), steps[1..])
  }

  // ------------------------------------------------------- proposed means owned

  ghost predicate Owner(t: Tables, k: GroupKey, p: P.Key) {
    k in t.proposals && LiveStatus(t.proposals[k].status) && p in t.proposals[k].sources
  }

  /** Every pattern marked "proposed" is a source of a shadowing or approved proposal. */
  ghost predicate Owned(t: Tables) {
    forall p :: p in t.patterns && t.patterns[p] == P.Proposed ==> exists k :: Owner(t, k, p)
  }

  lemma MiningKeepsOwned(t: Tables, keys: set<P.Key>)
    requires Owned(t)
    ensures Owned(Tables(Upsert(t.patterns, keys), t.proposals))
  {
    var t' := Tables(Upsert(t.patterns, keys), t.proposals);
    forall p | p in t'.patterns && t'.patterns[p] == P.Proposed ensures exists k :: Owner(t', k, p) {
      var k :| Owner(t, k, p);
      assert Owner(t', k, p);
    }
  }

  lemma DecidingKeepsOwned(t: Tables, k: GroupKey, status: S.Status)
    requires Owned(t) && (status == S.Approved || status == S.Rejected)
    ensures Owned(Decide(t, k, status))
  {
    var t' := Decide(t, k, status);
    forall p | p in t'.patterns && t'.patterns[p] == P.Proposed ensures exists q :: Owner(t', q, p) {
      var q :| Owner(t, q, p);
      assert Owner(t', q, p);
    }
  }

  // ------------------------------------------------------------ a night's effect

  /** Proposals that are live once the decisions are written. */
  ghost predicate LiveAfter(t: Tables, plan: Plan, k: GroupKey) {
    k in plan.inserts || (k in t.proposals && (LiveStatus(t.proposals[k].status) || k in plan.stale))
  }

  /** Live proposals the sweep will retire: those not seen since the cutoff. */
  ghost predicate Retired(t: Tables, plan: Plan, k: GroupKey) {
    && k in t.proposals && LiveStatus(t.proposals[k].status) && k !in plan.live
        && t.proposals[k].lastEligible < plan.cutoff
  }

  /** What a night does to one proposal. */
  lemma ProposalAfterNight(t: Tables, plan: Plan, groups: Present, k: GroupKey)
    requires Fits(plan, Statuses(t.proposals), groups) && plan.cutoff <= plan.now
    ensures var t' := AfterNight(t, plan);
            && (k in t'.proposals <==> k in t.proposals || k in plan.inserts)
            && (k in t.proposals ==> t'.proposals[k].sources == t.proposals[k].sources)
            && (k in plan.inserts ==> k !in t.proposals && t'.proposals[k] == plan.inserts[k])
            && (k in t.proposals && k in plan.stale ==>
                t'.proposals[k].status == S.Shadowing && t'.proposals[k].lastEligible == plan.now)
            && (Retired(t, plan, k) ==> t'.proposals[k].status == S.Stale)
            && (k in t.proposals && k !in plan.stale && !Retired(t, plan, k) ==>
                t'.proposals[k].status == t.proposals[k].status)
            && (k in plan.live ==> t'.proposals[k].lastEligible == plan.now)
  {
    assert k in t.proposals ==> k in Statuses(t.proposals) && Statuses(t.proposals)[k] == t.proposals[k].status;
  }

  /** p stops being "proposed" because a retired proposal drew on it. */
  ghost predicate Reverted(t: Tables, plan: Plan, p: P.Key) {
    exists k :: Retired(t, plan, k) && p in t.proposals[k].sources
  }

  /** The sweep's count is that of the proposals retired. */
  lemma SweptAreRetired(t: Tables, plan: Plan, groups: Present, k: GroupKey)
    requires Fits(plan, Statuses(t.proposals), groups) && plan.cutoff <= plan.now
    ensures k in GoneStale(BeforeSweep(t, plan).proposals, plan.cutoff) <==> Retired(t, plan, k)
  {
  }

  lemma RevertedAre(t: Tables, plan: Plan, groups: Present, p: P.Key)
    requires Fits(plan, Statuses(t.proposals), groups) && plan.cutoff <= plan.now
    ensures var written := BeforeSweep(t, plan).proposals;
            p in SourcesOf(written, GoneStale(written, plan.cutoff)) <==> Reverted(t, plan, p)
  {
  }

  /** What a night does to one pattern. */
  lemma PatternAfterNight(t: Tables, plan: Plan, groups: Present, p: P.Key)
    requires Fits(plan, Statuses(t.proposals), groups) && plan.cutoff <= plan.now
    ensures var t' := AfterNight(t, plan);
            && (p in t'.patterns <==> p in t.patterns)
            && (p in t.patterns ==>
                  var marked := if p in plan.marks && t.patterns[p] == P.New then P.Proposed else t.patterns[p];
                  t'.patterns[p] == if marked == P.Proposed && Reverted(t, plan, p) then P.New else marked)
  {
    hide GoneStale, Touch, Revive, SourcesOf, Reverted;
    RevertedAre(t, plan, groups, p);
  }

  // ------------------------------------------------- exactly when nights keep it

  /** Some proposal that survives the night draws on p. */
  ghost predicate Held(t: Tables, plan: Plan, p: P.Key) {
    exists k :: Holds(t, plan, k, p)
  }

  ghost predicate Holds(t: Tables, plan: Plan, k: GroupKey, p: P.Key) {
    && LiveAfter(t, plan, k) && !Retired(t, plan, k)
    && (if k in plan.inserts then p in plan.inserts[k].sources else p in t.proposals[k].sources)
  }

  lemma HolderOwns(t: Tables, plan: Plan, groups: Present, k: GroupKey, p: P.Key)
    requires Fits(plan, Statuses(t.proposals), groups) && plan.cutoff <= plan.now
    ensures Holds(t, plan, k, p) <==> Owner(AfterNight(t, plan), k, p)
  {
    hide AfterNight;
    ProposalAfterNight(t, plan, groups, k);
    assert k in t.proposals ==> k in Statuses(t.proposals) && Statuses(t.proposals)[k] == t.proposals[k].status;
  }

  /** A member of a revived group that would be newly marked without being a stored
      source of a surviving proposal, or of a retired one that takes the mark back. */
  ghost predicate Strays(t: Tables, plan: Plan, groups: Present, k: GroupKey, p: P.Key) {
    && k in plan.stale && k in groups && p in groups[k]
    && p in t.patterns && t.patterns[p] == P.New
    && !Held(t, plan, p) && !Reverted(t, plan, p)
  }

  /** A night keeps "proposed means owned" exactly when no revived group marks a
      pattern that its proposal, or another live one, does not list. */
  lemma NightKeepsOwnedIff(t: Tables, plan: Plan, groups: Present)
    requires Owned(t) && Fits(plan, Statuses(t.proposals), groups) && plan.cutoff <= plan.now
    ensures Owned(AfterNight(t, plan)) <==> forall k, p :: !Strays(t, plan, groups, k, p)
  {
    hide AfterNight, Fits;
    if forall k, p :: !Strays(t, plan, groups, k, p) {
      forall p | p in AfterNight(t, plan).patterns && AfterNight(t, plan).patterns[p] == P.Proposed
        ensures exists k :: Owner(AfterNight(t, plan), k, p)
      {
        ProposedIsHeld(t, plan, groups, p);
        var k :| Holds(t, plan, k, p);
        HolderOwns(t, plan, groups, k, p);
      }
    }
    if Owned(AfterNight(t, plan)) {
      forall k, p ensures !Strays(t, plan, groups, k, p) {
        OwnedHasNoStrays(t, plan, groups, k, p);
      }
    }
  }

  lemma OwnedHasNoStrays(t: Tables, plan: Plan, groups: Present, k: GroupKey, p: P.Key)
    requires Fits(plan, Statuses(t.proposals), groups) && plan.cutoff <= plan.now && Owned(AfterNight(t, plan))
    ensures !Strays(t, plan, groups, k, p)
  {
    hide AfterNight, Reverted, Holds;
    if k in plan.stale && k in groups && p in groups[k] {
      assert MarkedBy(plan, groups, k, p);
      PatternAfterNight(t, plan, groups, p);
      if p in t.patterns && t.patterns[p] == P.New && !Reverted(t, plan, p) {
        var q :| Owner(AfterNight(t, plan), q, p);
        HolderOwns(t, plan, groups, q, p);
      }
    }
  }

  lemma ProposedIsHeld(t: Tables, plan: Plan, groups: Present, p: P.Key)
    requires Owned(t) && Fits(plan, Statuses(t.proposals), groups) && plan.cutoff <= plan.now
    requires forall k :: !Strays(t, plan, groups, k, p)
    requires p in AfterNight(t, plan).patterns && AfterNight(t, plan).patterns[p] == P.Proposed
    ensures Held(t, plan, p)
  {
    hide AfterNight;
    PatternAfterNight(t, plan, groups, p);
    if t.patterns[p] == P.Proposed {
      var k :| Owner(t, k, p);
      StaysHolder(t, plan, groups, k, p);
    } else {
      var k :| MarkedBy(plan, groups, k, p);
      if k in plan.inserts {
        assert Holds(t, plan, k, p);
      } else {
        assert !Strays(t, plan, groups, k, p);
      }
    }
  }

  lemma StaysHolder(t: Tables, plan: Plan, groups: Present, k: GroupKey, p: P.Key)
    requires Fits(plan, Statuses(t.proposals), groups) && Owner(t, k, p) && !Reverted(t, plan, p)
    ensures Holds(t, plan, k, p)
  {
  }

  // ---------------------------------------------------------- over whole runs

  /** Revived groups bring only pattern keys their proposals already list. */
  ghost predicate RevivesStored(t: Tables, step: Step) {
    step.Proposed? ==>
      forall k, p :: k in step.plan.stale && k in step.groups && k in t.proposals && p in step.groups[k] ==>
          p in t.proposals[k].sources
  }

  ghost predicate AllReviveStored(t: Tables, steps: seq<Step>)
    decreases |steps|
  {
    steps != [] ==> RevivesStored(t, steps[0]) && AllReviveStored(Take(t, steps[0]), steps[1..])
  }

  lemma StoredHasNoStrays(t: Tables, plan: Plan, groups: Present)
    requires Fits(plan, Statuses(t.proposals), groups) && RevivesStored(t, Proposed(plan, groups))
    ensures forall k, p :: !Strays(t, plan, groups, k, p)
  {
    forall k, p ensures !Strays(t, plan, groups, k, p) {
      if k in plan.stale && k in groups && p in groups[k] {
        assert k in Statuses(t.proposals) && t.proposals[k].status == S.Stale;
        assert Holds(t, plan, k, p);
      }
    }
  }

  lemma StepKeepsOwned(t: Tables, step: Step)
    requires Owned(t) && Allowed(t, step) && RevivesStored(t, step)
    ensures Owned(Take(t, step))
  {
    hide Owned, Fits, AfterNight, Decide;
    match step {
      case Mined(keys) => MiningKeepsOwned(t, keys);
      case Decided(k, status) => DecidingKeepsOwned(t, k, status);
      case Proposed(plan, groups) =>
        StoredHasNoStrays(t, plan, groups);
        NightKeepsOwnedIff(t, plan, groups);
    }
  }

  /** Over every sequence of mining, nights and operator decisions, from empty tables or
      any other sound start, each "proposed" pattern belongs to a live proposal. */
  lemma {:induction false} ProposedIsOwned(t: Tables, steps: seq<Step>)
    requires Owned(t) && Run(t, steps) && AllReviveStored(t, steps)
    ensures Owned(End(t, steps))
    decreases |steps|
  {
    hide Owned, Take;
    if steps != [] {
      StepKeepsOwned(t, steps[0]);
      ProposedIsOwned(Take(t, steps[0]), steps[1..]);
    }
  }

  lemma StepKeepsRejections(t: Tables, step: Step, k: GroupKey, p: P.Key)
    requires Allowed(t, step)
    ensures k in t.proposals ==>
              k in Take(t, step).proposals && Take(t, step).proposals[k].sources == t.proposals[k].sources
              && (t.proposals[k].status == S.Rejected ==> Take(t, step).proposals[k].status == S.Rejected)
    ensures p in t.patterns ==>
              p in Take(t, step).patterns && (t.patterns[p] == P.Rejected ==> Take(t, step).patterns[p] == P.Rejected)
  {
    hide AfterNight, Fits;
    if step.Proposed? {
      ProposalAfterNight(t, step.plan, step.groups, k);
      PatternAfterNight(t, step.plan, step.groups, p);
      StaleWasStale(t, step.plan, step.groups, k);
    }
  }

  lemma StaleWasStale(t: Tables, plan: Plan, groups: Present, k: GroupKey)
    requires Fits(plan, Statuses(t.proposals), groups)
    ensures k in plan.stale ==> k in t.proposals && t.proposals[k].status == S.Stale
  {
  }

  /** Rejection is final for proposals and for patterns, and nothing is ever deleted. */
  lemma {:induction false} RejectionIsFinal(t: Tables, steps: seq<Step>, k: GroupKey, p: P.Key)
    requires Run(t, steps)
    ensures k in t.proposals ==>
              k in End(t, steps).proposals && End(t, steps).proposals[k].sources == t.proposals[k].sources
              && (t.proposals[k].status == S.Rejected ==> End(t, steps).proposals[k].status == S.Rejected)
    ensures p in t.patterns ==>
              p in End(t, steps).patterns && (t.patterns[p] == P.Rejected ==> End(t, steps).patterns[p] == P.Rejected)
    decreases |steps|
  {
    hide Take;
    if steps != [] {
      StepKeepsRejections(t, steps[0], k, p);
      RejectionIsFinal(Take(t, steps[0]), steps[1..], k, p);
    }
  }

  /** After a night, no group that was present has a stale proposal, and every live
      proposal was eligible no longer ago than the cutoff. */
  lemma NightLeavesNoneStale(t: Tables, plan: Plan, groups: Present, k: GroupKey)
    requires Fits(plan, Statuses(t.proposals), groups) && plan.cutoff <= plan.now
    ensures var t' := AfterNight(t, plan);
            && (k in groups && k in t'.proposals ==> t'.proposals[k].status != S.Stale)
            && (k in t'.proposals && LiveStatus(t'.proposals[k].status) ==> t'.proposals[k].lastEligible >= plan.cutoff)
  {
  }

  /** An approval lasts exactly until a night retires the proposal. */
  lemma ApprovedUntilRetired(t: Tables, step: Step, k: GroupKey)
    requires Allowed(t, step) && k in t.proposals && t.proposals[k].status == S.Approved
    ensures k in Take(t, step).proposals
    ensures Take(t, step).proposals[k].status == S.Approved <==> !(step.Proposed? && Retired(t, step.plan, k))
  {
  }

  // ------------------------------------------------------------ counterexamples

  /** Why revived groups must bring stored keys only: the group comes back with a
      pattern mined under a new key, which is marked but belongs to no proposal. */
  lemma RevivalCanOrphan(g: GroupKey, stored: P.Key, other: P.Key) returns (t: Tables, plan: Plan, groups: Present)
    requires stored != other
    ensures Owned(t) && Fits(plan, Statuses(t.proposals), groups) && plan.cutoff <= plan.now
    ensures !Owned(AfterNight(t, plan))
  {
    t := Tables(map[stored := P.New, other := P.New], map[g := Proposal(S.Stale, {stored}, 0)]);
    groups := map[g := {other}];
    plan := Plan({}, {g}, map[], {other}, 100, 0);
    assert Statuses(t.proposals)[g] == S.Stale;
    assert MarkedBy(plan, groups, g, other);
    PatternAfterNight(t, plan, groups, other);
    forall k ensures !Owner(AfterNight(t, plan), k, other) {
      ProposalAfterNight(t, plan, groups, k);
    }
  }

  /** An approved proposal that goes stale and comes back is only shadowing again. */
  lemma RevivalForgetsApproval(t: Tables, first: Plan, absent: Present, second: Plan, present: Present, k: GroupKey)
    requires k in t.proposals && t.proposals[k].status == S.Approved
    requires Fits(first, Statuses(t.proposals), absent) && first.cutoff <= first.now && Retired(t, first, k)
    requires Fits(second, Statuses(AfterNight(t, first).proposals), present) && second.cutoff <= second.now
    requires k in present
    ensures k in AfterNight(AfterNight(t, first), second).proposals
    ensures AfterNight(AfterNight(t, first), second).proposals[k].status == S.Shadowing
  {
    hide AfterNight;
    ProposalAfterNight(t, first, absent, k);
    var t' := AfterNight(t, first);
    assert Statuses(t'.proposals)[k] == S.Stale;
    ProposalAfterNight(t', second, present, k);
  }
}
