/** run_proposing (src/pae/proposer/service.py) end to end: gates, groups, decisions and
    table updates in one transaction. */
module ProposeRuns {
  import opened Schema
  import opened Sorting
  import opened Bucketing
  import opened Gates
  import opened ProposalGroups
  import opened Proposer
  import opened Lifecycle
  import P = PatternKeys
  import S = ShadowRuns

  // ------------------------------------------------- from decisions to a plan

  function GroupKeys(groups: seq<ProposalGroup>): set<GroupKey> {
    set i | 0 <= i < |groups| :: KeyOf(groups[i])
  }

  /** [g.group_key for g in groups if existing.get(g.group_key) in statuses] */
  function KeysWith(groups: seq<ProposalGroup>, existing: map<GroupKey, S.Status>,
                    statuses: set<S.Status>): set<GroupKey> {
    set k | k in GroupKeys(groups) && k in existing && existing[k] in statuses
  }

  function RowOf(d: Draft): Lifecycle.Proposal {
    Lifecycle.Proposal(S.Shadowing, (set k | k in d.sources), d.lastEligible)
  }

  function Rows(drafts: seq<Draft>): map<GroupKey, Lifecycle.Proposal> {
    if drafts == [] then map[]
    else Rows(drafts[..|drafts| - 1])[drafts[|drafts| - 1].key := RowOf(drafts[|drafts| - 1])]
  }

  /** The pattern keys of every group that has key k. */
  function MembersWith(groups: seq<ProposalGroup>, k: GroupKey): set<P.Key> {
    set i, p | 0 <= i < |groups| && KeyOf(groups[i]) == k && p in KeysIn(groups[i].patterns) :: p
  }

  /** The groups present, by key: what was drafted for a key, or else all its members. */
  ghost function PresentOf(n: Night): Present {
    var rows := Rows(Drafts(n, |n.groups|));
    map k | k in GroupKeys(n.groups) :: if k in rows then rows[k].sources else MembersWith(n.groups, k)
  }

  function MakePlan(n: Night, inserts: seq<Draft>, marks: set<P.Key>, cutoff: int): Plan {
    Plan(KeysWith(n.groups, n.existing, {S.Shadowing, S.Approved}), KeysWith(n.groups, n.existing, {S.Stale}),
         Rows(inserts), marks, n.now, cutoff)
  }

  ghost function PlanOf(n: Night, cutoff: int): Plan {
    MakePlan(n, Drafts(n, |n.groups|), Marked(n, |n.groups|), cutoff)
  }

  lemma {:induction false} RowsHas(drafts: seq<Draft>, k: GroupKey)
    requires DraftKeysDistinct(drafts)
    ensures k in Rows(drafts) <==> exists d :: d in drafts && d.key == k
    ensures forall d :: d in drafts && d.key == k ==> Rows(drafts)[k] == RowOf(d)
  {
    if drafts != [] {
      var front, last := drafts[..|drafts| - 1], drafts[|drafts| - 1];
      assert drafts == front + [last];
      RowsHas(front, k);
    }
  }

  /** A stored row was drafted for a group of its key, and carries that group's patterns. */
  lemma RowOrigin(n: Night, k: GroupKey) returns (i: nat)
    requires DraftKeysDistinct(Drafts(n, |n.groups|)) && k in Rows(Drafts(n, |n.groups|))
    ensures i < |n.groups| && OutcomeAt(n, i).Drafted? && KeyOf(n.groups[i]) == k && k !in n.existing
    ensures Rows(Drafts(n, |n.groups|))[k] == Lifecycle.Proposal(S.Shadowing, KeysIn(n.groups[i].patterns), n.now)
  {
    hide Acceptable, KeyOf, OutcomeAt, DraftKeysDistinct, KeysIn;
    RowsHas(Drafts(n, |n.groups|), k);
    var d :| d in Drafts(n, |n.groups|) && d.key == k;
    DraftOrigin(n, |n.groups|, d);
    i :| i < |n.groups| && OutcomeAt(n, i) == Drafted(d);
    DraftedIsAcceptable(n, i, d);
    SourcesAreKeys(n.groups[i].patterns);
  }

  lemma SourcesAreKeys(patterns: seq<Pattern>)
    ensures (set k | k in Sources(patterns)) == KeysIn(patterns)
  {
  }

  lemma DraftedRow(n: Night, i: nat)
    requires DraftKeysDistinct(Drafts(n, |n.groups|)) && i < |n.groups| && OutcomeAt(n, i).Drafted?
    ensures var rows, k := Rows(Drafts(n, |n.groups|)), KeyOf(n.groups[i]);
            k in rows && rows[k].sources == KeysIn(n.groups[i].patterns)
  {
    hide Acceptable, KeyOf, OutcomeAt, DraftKeysDistinct, KeysIn;
    var d := OutcomeAt(n, i).draft;
    DraftedIsAcceptable(n, i, d);
    DraftOrigin(n, |n.groups|, d);
    RowsHas(Drafts(n, |n.groups|), d.key);
    SourcesAreKeys(n.groups[i].patterns);
  }

  lemma RevivedIffStale(n: Night, i: nat)
    requires i < |n.groups|
    ensures KeyOf(n.groups[i]) in KeysWith(n.groups, n.existing, {S.Stale}) <==> OutcomeAt(n, i).Revived?
  {
  }

  /** A marked pattern belongs to a group whose key is inserted or revived. */
  lemma MarkHasGroup(n: Night, cutoff: int, i: nat, p: P.Key)
    requires DraftKeysDistinct(Drafts(n, |n.groups|)) && i < |n.groups| && MarksGroup(n, i)
    requires p in KeysIn(n.groups[i].patterns)
    ensures MarkedBy(PlanOf(n, cutoff), PresentOf(n), KeyOf(n.groups[i]), p)
  {
    hide Acceptable, KeyOf, OutcomeAt, DraftKeysDistinct, KeysIn, Drafts, Rows;
    var k, rows := KeyOf(n.groups[i]), Rows(Drafts(n, |n.groups|));
    assert k in GroupKeys(n.groups);
    if OutcomeAt(n, i).Drafted? {
      DraftedRow(n, i);
    } else {
      RevivedIffStale(n, i);
      if k in rows {
        var j := RowOrigin(n, k);
      }
      assert p in MembersWith(n.groups, k);
    }
  }

  lemma GroupHasMark(n: Night, cutoff: int, k: GroupKey, p: P.Key) returns (i: nat)
    requires DraftKeysDistinct(Drafts(n, |n.groups|)) && MarkedBy(PlanOf(n, cutoff), PresentOf(n), k, p)
    ensures i < |n.groups| && MarksGroup(n, i) && p in KeysIn(n.groups[i].patterns)
  {
    hide Acceptable, KeyOf, OutcomeAt, DraftKeysDistinct, KeysIn, Drafts, Rows;
    var rows := Rows(Drafts(n, |n.groups|));
    if k in rows {
      i := RowOrigin(n, k);
    } else {
      i :| 0 <= i < |n.groups| && KeyOf(n.groups[i]) == k && p in KeysIn(n.groups[i].patterns);
      RevivedIffStale(n, i);
    }
  }

  lemma MarksFit(n: Night, cutoff: int, p: P.Key)
    requires DraftKeysDistinct(Drafts(n, |n.groups|))
    ensures p in Marked(n, |n.groups|) <==> exists k :: MarkedBy(PlanOf(n, cutoff), PresentOf(n), k, p)
  {
    hide PlanOf, PresentOf, MarkedBy, Marked, MarksGroup, KeysIn, DraftKeysDistinct, Drafts, KeyOf;
    MarkedOrigin(n, |n.groups|, p);
    if i: nat :| i < |n.groups| && MarksGroup(n, i) && p in KeysIn(n.groups[i].patterns) {
      MarkHasGroup(n, cutoff, i, p);
    }
    if k :| MarkedBy(PlanOf(n, cutoff), PresentOf(n), k, p) {
      var i := GroupHasMark(n, cutoff, k, p);
    }
  }

  /** What a night decides fits the statuses it read and the groups it found, whenever its
      drafts can be inserted at all: several groups may share a key. */
  lemma NightFits(n: Night, cutoff: int)
    requires DraftKeysDistinct(Drafts(n, |n.groups|))
    ensures Fits(PlanOf(n, cutoff), n.existing, PresentOf(n))
  {
    hide Drafts, Marked, Rows, MarkedBy, KeyOf, DraftKeysDistinct, MembersWith;
    forall k | k in PlanOf(n, cutoff).inserts
      ensures k in PresentOf(n) && k !in n.existing
      ensures PlanOf(n, cutoff).inserts[k] == Lifecycle.Proposal(S.Shadowing, PresentOf(n)[k], n.now)
    {
      var i := RowOrigin(n, k);
      assert k in GroupKeys(n.groups);
    }
    forall p ensures p in PlanOf(n, cutoff).marks <==> exists k :: MarkedBy(PlanOf(n, cutoff), PresentOf(n), k, p) {
      MarksFit(n, cutoff, p);
    }
  }

  // ------------------------------------------------------------------ the run

  datatype Settings = Settings(limits: Limits, window: int, grace: int, staleSeconds: nat)

  /** The rows read are the patterns table. */
  ghost predicate Mirrors(stored: seq<Pattern>, patterns: map<P.Key, P.Status>) {
    && (forall i, j :: 0 <= i < j < |stored| ==> stored[i].key != stored[j].key)
    && (forall p :: p in stored ==> p.key in patterns && patterns[p.key] == p.status)
    && (forall k :: k in patterns ==> exists p :: p in stored && p.key == k)
  }

  /** One transaction. The insert fails, and everything is rolled back, when two drafts
      carry the same group key; otherwise the plan fits what the night found, so that
      the atomic night's theorems apply. */
  method RunProposing(store: Store, stored: seq<Pattern>, domains: map<string, string>, settings: Settings,
                      meanOf: seq<int> -> int, replies: nat -> Reply, sky: Sky, now: int)
    returns (committed: bool, counters: Counters, staleMarked: nat, ghost n: Night)
    requires Mirrors(stored, store.patterns)
    modifies store
    ensures n.existing == Statuses(old(store.proposals)) && n.domains == domains && n.replies == replies && n.now == now
    ensures AreGroups(EligibleOf(stored, domains.Keys, settings.limits), settings.window, meanOf, n.groups)
    ensures committed <==> DraftKeysDistinct(Drafts(n, |n.groups|))
    ensures committed ==> Fits(PlanOf(n, now - settings.staleSeconds), Statuses(old(store.proposals)), PresentOf(n))
    ensures store.Now() == if committed
        then Lifecycle.AfterNight(old(store.Now()), PlanOf(n, now - settings.staleSeconds))
                           else old(store.Now())
    ensures forall k :: k in Marked(n, |n.groups|) ==> k in old(store.patterns) && old(store.patterns)[k] != P.Rejected
    ensures counters == Count(n, |n.groups|)
  {
    hide AreGroups, KeysWith, Drafts, Marked, Count, Mirrors, Fits, AfterNight, PresentOf, DraftKeysDistinct, Eligible,
        SchedFlagged;
    staleMarked := 0;
    var eligible := EligiblePatterns(stored, domains.Keys, settings.limits);
    EligibleDistinct(stored, store.patterns, domains.Keys, settings.limits);
    var groups := BuildGroups(eligible, settings.window, meanOf);
    var night := Proposer.Night(groups, Statuses(store.proposals), replies, domains, sky, settings.grace, now);
    n := night;
    var inserts, updates, calls;
    counters, inserts, updates, calls := ProcessGroups(night);
    MarksAreStored(stored, store.patterns, domains.Keys, settings, meanOf, n);
    committed := DraftKeysDistinct(inserts);
    if committed {
      NightFits(n, now - settings.staleSeconds);
      staleMarked := store.ApplyPlan(MakePlan(night, inserts, updates, now - settings.staleSeconds));
    }
  }

  lemma EligibleDistinct(stored: seq<Pattern>, patterns: map<P.Key, P.Status>, registry: set<string>, l: Limits)
    requires Mirrors(stored, patterns)
    ensures Distinct(EligibleOf(stored, registry, l))
  {
    FilterDistinct((p: Pattern) => Eligible(p, SchedFlagged(stored), registry, l), stored);
  }

  /** The gates keep rejected patterns out, so a night marks none. */
  lemma MarksAreStored(stored: seq<Pattern>, patterns: map<P.Key, P.Status>, registry: set<string>, settings: Settings,
                       meanOf: seq<int> -> int, n: Night)
    requires Mirrors(stored, patterns)
    requires AreGroups(EligibleOf(stored, registry, settings.limits), settings.window, meanOf, n.groups)
    ensures forall k :: k in Marked(n, |n.groups|) ==> k in patterns && patterns[k] != P.Rejected
  {
    hide AreGroups, Marked, MarksGroup, SchedFlagged, Eligible;
    forall k | k in Marked(n, |n.groups|) ensures k in patterns && patterns[k] != P.Rejected {
      MarkedOrigin(n, |n.groups|, k);
      var i: nat :| i < |n.groups| && MarksGroup(n, i) && k in KeysIn(n.groups[i].patterns);
      var m :| 0 <= m < |n.groups[i].patterns| && n.groups[i].patterns[m].key == k;
      var p := n.groups[i].patterns[m];
      MemberKinds(EligibleOf(stored, registry, settings.limits), settings.window, meanOf, n.groups, i, p);
      EligibleIsSafe(stored, registry, settings.limits, p);
    }
  }

  // ------------------------------------------------- rejected for good

  /** A pattern rejected together with its proposal is in no group of any later run,
      whatever was mined, decided and proposed in between. */
  lemma RejectedIsNeverGrouped(t: Tables, k: GroupKey, p: P.Key, steps: seq<Step>, stored: seq<Pattern>,
                               registry: set<string>, l: Limits, window: int, meanOf: seq<int> -> int,
                               groups: seq<ProposalGroup>, i: nat)
    requires Actionable(t.proposals, k) && p in t.proposals[k].sources && p in t.patterns && t.patterns[p] == P.Proposed
    requires Run(Decide(t, k, S.Rejected), steps) && Mirrors(stored, End(Decide(t, k, S.Rejected), steps).patterns)
    requires AreGroups(EligibleOf(stored, registry, l), window, meanOf, groups) && i < |groups|
    ensures p !in KeysIn(groups[i].patterns)
  {
    hide Run, AreGroups, Mirrors, Eligible;
    var t' := Decide(t, k, S.Rejected);
    assert t'.patterns[p] == P.Rejected;
    RejectionIsFinal(t', steps, k, p);
    forall m | 0 <= m < |groups[i].patterns| ensures groups[i].patterns[m].key != p {
      var q := groups[i].patterns[m];
      MemberKinds(EligibleOf(stored, registry, l), window, meanOf, groups, i, q);
      EligibleIsSafe(stored, registry, l, q);
      MirrorsStatus(stored, End(t', steps).patterns, q);
    }
  }

  lemma MirrorsStatus(stored: seq<Pattern>, patterns: map<P.Key, P.Status>, q: Pattern)
    requires Mirrors(stored, patterns) && q in stored
    ensures q.key in patterns && patterns[q.key] == q.status
  {
  }
}
