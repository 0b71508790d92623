/** Exactly when single statements, miner and operator steps interleaved at will, keep
    "every proposed pattern belongs to a live proposal"
    (src/pae/proposer/service.py, src/pae/proposer/repo.py). */
module Ownership {
  import opened ProposalGroups
  import opened Lifecycle
  import opened Interleaving
  import P = PatternKeys
  import S = ShadowRuns

  // ------------------------------------------------------- the one statement

  /** With the statement that marks patterns next, ownership is kept iff every candidate
      it will mark has a live owner at that moment. */
  lemma MarkingKeepsOwnedIff(s: State)
    requires s.pc == Marking && Owned(s.t)
    ensures Owned(Statement(s).t)
       <==> forall p :: p in s.plan.marks && p in s.t.patterns && s.t.patterns[p] == P.New ==>
           exists k :: Owner(s.t, k, p)
  {
    var t' := Statement(s).t;
    forall k, p ensures Owner(t', k, p) <==> Owner(s.t, k, p) {
    }
    if Owned(t') {
      forall p | p in s.plan.marks && p in s.t.patterns && s.t.patterns[p] == P.New
        ensures exists k :: Owner(s.t, k, p) {
        assert t'.patterns[p] == P.Proposed;
        var k :| Owner(t', k, p);
      }
    }
    if forall p :: p in s.plan.marks && p in s.t.patterns && s.t.patterns[p] == P.New ==> exists k :: Owner(s.t, k, p) {
      forall p | p in t'.patterns && t'.patterns[p] == P.Proposed ensures exists k :: Owner(t', k, p) {
        var k :| Owner(s.t, k, p);
      }
    }
  }

  // --------------------------------------------------------- between statements

  /** k is live, or rejected so recently that its patterns still have to follow. */
  ghost predicate Shelters(s: State, k: GroupKey, p: P.Key) {
    k in s.t.proposals && p in s.t.proposals[k].sources && (LiveStatus(s.t.proposals[k].status) || k in s.pending)
  }

  ghost predicate Sheltered(s: State, p: P.Key) {
    exists k :: Shelters(s, k, p)
  }

  /** Or the sweep is about to take the mark back. */
  ghost predicate Covered(s: State, p: P.Key) {
    Sheltered(s, p) || (s.pc == Reverting && p in s.revert)
  }

  ghost predicate AllCovered(s: State) {
    forall p :: p in s.t.patterns && s.t.patterns[p] == P.Proposed ==> Covered(s, p)
  }

  /** At rest, that is the atomic invariant. */
  lemma CoveredAtRest(s: State)
    requires s.pc == Idle && s.pending == {}
    ensures AllCovered(s) <==> Owned(s.t)
  {
    forall k, p ensures Shelters(s, k, p) <==> Owner(s.t, k, p) {
    }
    if Owned(s.t) {
      forall p | p in s.t.patterns && s.t.patterns[p] == P.Proposed ensures Sheltered(s, p) {
        var k :| Owner(s.t, k, p);
        assert Shelters(s, k, p);
      }
    }
    if AllCovered(s) {
      forall p | p in s.t.patterns && s.t.patterns[p] == P.Proposed ensures exists k :: Owner(s.t, k, p) {
        var k :| Shelters(s, k, p);
        assert Owner(s.t, k, p);
      }
    }
  }

  predicate InNight(pc: Pc) { pc == Touching || pc == Reviving || pc == Inserting || pc == Marking }

  /** A revived group's members are stored sources, and its row has left "stale" once the
      revive has run, by the revive or by the operator. */
  ghost predicate StaleFits(s: State, k: GroupKey) {
    && k in s.t.proposals
    && (k in s.groups ==> s.groups[k] <= s.t.proposals[k].sources)
    && (s.pc == Inserting || s.pc == Marking ==> s.t.proposals[k].status != S.Stale)
  }

  ghost predicate InsertFits(s: State, k: GroupKey)
    requires k in s.plan.inserts
  {
    && k in s.groups && s.plan.inserts[k].sources == s.groups[k] && s.plan.inserts[k].status == S.Shadowing
    && (s.pc == Marking ==>
          k in s.t.proposals && s.t.proposals[k].sources == s.groups[k] && s.t.proposals[k].status != S.Stale)
  }

  /** What the night under way knows of the tables, whatever happened since it began. */
  ghost predicate NightInv(s: State) {
    && Sound(s)
    && (s.pc == Sweeping ==> SourcesOf(s.t.proposals, s.gone) <= s.revert)
    && (InNight(s.pc) ==>
          && (forall k :: k in s.plan.stale ==> StaleFits(s, k))
          && (forall k :: k in s.plan.inserts ==> InsertFits(s, k))
          && (forall p :: p in s.plan.marks <==> exists k :: MarkedBy(s.plan, s.groups, k, p)))
  }

  /** A night's revived groups bring stored keys only. */
  ghost predicate BringsStored(s: State, a: Act) {
    a.Begin? ==> RevivesStored(s.t, Proposed(a.plan, a.groups))
  }

  lemma BeginKeepsInv(s: State, a: Act)
    requires NightInv(s) && Enabled(s, a) && BringsStored(s, a) && a.Begin?
    ensures NightInv(Do(s, a))
  {
    StepKeepsSound(s, a);
    var s' := Do(s, a);
    forall k | k in s'.plan.stale ensures StaleFits(s', k) {
      assert k in Statuses(s.t.proposals);
    }
  }

  lemma StepKeepsInv(s: State, a: Act)
    requires NightInv(s) && Enabled(s, a) && BringsStored(s, a)
    ensures NightInv(Do(s, a))
  {
    if a.Begin? {
      BeginKeepsInv(s, a);
    } else {
      hide Sound, MarkedBy, Fits;
      StepKeepsSound(s, a);
      SweepSources(s, a);
      if InNight(Do(s, a).pc) {
        forall k | k in s.plan.stale ensures StaleFits(Do(s, a), k) {
          StepKeepsStale(s, a, k);
        }
        forall k | k in s.plan.inserts ensures InsertFits(Do(s, a), k) {
          StepKeepsInsert(s, a, k);
        }
      }
    }
  }

  lemma SweepSources(s: State, a: Act)
    requires NightInv(s) && Enabled(s, a) && !a.Begin?
    ensures Do(s, a).pc == Sweeping ==> SourcesOf(Do(s, a).t.proposals, Do(s, a).gone) <= Do(s, a).revert
  {
    hide GoneStale, Sound;
    var s' := Do(s, a);
    if s'.pc == Sweeping {
      forall p | p in SourcesOf(s'.t.proposals, s'.gone) ensures p in s'.revert {
        var k :| k in s'.gone && k in s'.t.proposals && p in s'.t.proposals[k].sources;
        assert p in SourcesOf(s.t.proposals, s'.gone);
      }
    }
  }

  lemma StepKeepsStale(s: State, a: Act, k: GroupKey)
    requires Enabled(s, a) && !a.Begin? && InNight(s.pc) && InNight(Do(s, a).pc) && Sound(s) && StaleFits(s, k)
    requires k in s.plan.stale
    ensures StaleFits(Do(s, a), k)
  {
  }

  lemma StepKeepsInsert(s: State, a: Act, k: GroupKey)
    requires Enabled(s, a) && !a.Begin? && InNight(s.pc) && InNight(Do(s, a).pc)
    requires k in s.plan.inserts && InsertFits(s, k)
    ensures InsertFits(Do(s, a), k)
  {
  }

  // -------------------------------------------------------- which steps keep it

  /** Every step but the marking keeps each proposed pattern covered. */
  lemma StepKeepsCovered(s: State, a: Act)
    requires NightInv(s) && AllCovered(s) && Enabled(s, a) && !(s.pc == Marking && a.Advance?)
    ensures AllCovered(Do(s, a))
  {
    hide NightInv, Enabled, Do, Covered;
    var s' := Do(s, a);
    forall p | p in s'.t.patterns && s'.t.patterns[p] == P.Proposed ensures Covered(s', p) {
      ProposedBefore(s, a, p);
      StillCovered(s, a, p);
    }
  }

  lemma ProposedBefore(s: State, a: Act, p: P.Key)
    requires Enabled(s, a) && !(s.pc == Marking && a.Advance?)
    ensures var s' := Do(s, a);
            p in s'.t.patterns && s'.t.patterns[p] == P.Proposed ==> p in s.t.patterns && s.t.patterns[p] == P.Proposed
  {
  }

  lemma StillCovered(s: State, a: Act, p: P.Key)
    requires NightInv(s) && Enabled(s, a) && !(s.pc == Marking && a.Advance?) && Covered(s, p)
    requires var t' := Do(s, a).t; p in t'.patterns && t'.patterns[p] == P.Proposed
    requires p in s.t.patterns && s.t.patterns[p] == P.Proposed
    ensures Covered(Do(s, a), p)
  {
    if Sheltered(s, p) {
      var k :| Shelters(s, k, p);
      ShelterStays(s, a, k, p);
    }
  }

  lemma ShelterStays(s: State, a: Act, k: GroupKey, p: P.Key)
    requires NightInv(s) && Enabled(s, a) && Shelters(s, k, p)
    requires var t' := Do(s, a).t; p in t'.patterns && t'.patterns[p] == P.Proposed
    requires p in s.t.patterns && s.t.patterns[p] == P.Proposed
    ensures Shelters(Do(s, a), k, p) || (Do(s, a).pc == Reverting && p in Do(s, a).revert)
  {
    if a.Advance? && s.pc == Sweeping && k in s.gone {
      assert p in SourcesOf(s.t.proposals, s.gone);
    }
  }

  /** p is about to be marked although every group that marks it has been rejected
      meanwhile, its patterns dealt with, and no other proposal holds it. */
  ghost predicate RejectedAway(s: State, p: P.Key) {
    && p in s.plan.marks && p in s.t.patterns && s.t.patterns[p] == P.New
    && (forall k :: MarkedBy(s.plan, s.groups, k, p) ==>
          k in s.t.proposals && s.t.proposals[k].status == S.Rejected && k !in s.pending)
    && !Sheltered(s, p)
  }

  /** A group of tonight's still holds what it marks unless it was rejected. */
  lemma MarkerShelters(s: State, k: GroupKey, p: P.Key)
    requires NightInv(s) && s.pc == Marking && MarkedBy(s.plan, s.groups, k, p)
    ensures k in s.t.proposals && p in s.t.proposals[k].sources
    ensures Shelters(s, k, p) <==> s.t.proposals[k].status != S.Rejected || k in s.pending
  {
    if k in s.plan.inserts {
      assert InsertFits(s, k);
    } else {
      assert StaleFits(s, k);
    }
  }

  lemma UnshelteredIsRejectedAway(s: State, p: P.Key)
    requires NightInv(s) && s.pc == Marking
    requires p in s.plan.marks && p in s.t.patterns && s.t.patterns[p] == P.New
    ensures Sheltered(s, p) <==> !RejectedAway(s, p)
  {
    hide NightInv, Shelters, MarkedBy;
    if !Sheltered(s, p) {
      forall k | MarkedBy(s.plan, s.groups, k, p)
        ensures k in s.t.proposals && s.t.proposals[k].status == S.Rejected && k !in s.pending
      {
        MarkerShelters(s, k, p);
      }
    }
  }

  /** The marking keeps everything covered iff it marks nothing that was rejected away. */
  lemma MarkingKeepsCoveredIff(s: State)
    requires NightInv(s) && AllCovered(s) && s.pc == Marking
    ensures AllCovered(Statement(s)) <==> forall p :: !RejectedAway(s, p)
  {
    hide NightInv;
    var s' := Statement(s);
    forall p ensures Covered(s', p) <==> Sheltered(s, p) {
      forall k ensures Shelters(s', k, p) <==> Shelters(s, k, p) {
      }
    }
    hide Covered, Sheltered, RejectedAway;
    forall p | p in s.plan.marks && p in s.t.patterns && s.t.patterns[p] == P.New
      ensures s'.t.patterns[p] == P.Proposed && (Covered(s', p) <==> !RejectedAway(s, p))
    {
      UnshelteredIsRejectedAway(s, p);
    }
    ProposedAfterMarking(s);
    AwayIsMarked(s);
  }

  lemma ProposedAfterMarking(s: State)
    requires AllCovered(s) && s.pc == Marking
    ensures forall p :: p in Statement(s).t.patterns && Statement(s).t.patterns[p] == P.Proposed ==>
              Sheltered(s, p) || (p in s.plan.marks && p in s.t.patterns && s.t.patterns[p] == P.New)
  {
  }

  lemma AwayIsMarked(s: State)
    ensures forall p :: RejectedAway(s, p) ==> p in s.plan.marks && p in s.t.patterns && s.t.patterns[p] == P.New
  {
  }

  // --------------------------------------------------------------- whole runs

  ghost predicate AlwaysStored(s: State, acts: seq<Act>)
    decreases |acts|
  {
    acts != [] ==> BringsStored(s, acts[0]) && AlwaysStored(Do(s, acts[0]), acts[1..])
  }

  ghost predicate AlwaysCovered(s: State, acts: seq<Act>)
    decreases |acts|
  {
    AllCovered(s) && (acts != [] ==> AlwaysCovered(Do(s, acts[0]), acts[1..]))
  }

  /** No marking of the run comes after the rejection of all that it marks for. */
  ghost predicate MarksInTime(s: State, acts: seq<Act>)
    decreases |acts|
  {
    acts != [] ==>
      && (s.pc == Marking && acts[0].Advance? ==> forall p :: !RejectedAway(s, p))
      && MarksInTime(Do(s, acts[0]), acts[1..])
  }

  /** Over every interleaving of nights, miner and operator in which revived groups bring
      stored keys: each proposed pattern stays covered throughout if and only if no
      marking comes too late. */
  lemma {:induction false} CoveredThroughoutIff(s: State, acts: seq<Act>)
    requires NightInv(s) && AllCovered(s) && Exec(s, acts) && AlwaysStored(s, acts)
    ensures AlwaysCovered(s, acts) <==> MarksInTime(s, acts)
    decreases |acts|
  {
    hide NightInv, AllCovered, Enabled, Do, BringsStored, RejectedAway;
    if acts != [] {
      var s' := Do(s, acts[0]);
      StepKeepsInv(s, acts[0]);
      if s.pc == Marking && acts[0].Advance? {
        MarkingKeepsCoveredIff(s);
        AdvanceIsStatement(s);
      } else {
        StepKeepsCovered(s, acts[0]);
      }
      if AllCovered(s') {
        CoveredThroughoutIff(s', acts[1..]);
      }
    }
  }

  lemma AdvanceIsStatement(s: State)
    ensures Do(s, Advance) == Statement(s)
  {
  }

  lemma {:induction false} EndsCovered(s: State, acts: seq<Act>)
    requires AlwaysCovered(s, acts)
    ensures AllCovered(After(s, acts))
    decreases |acts|
  {
    hide AllCovered, Do;
    if acts != [] {
      EndsCovered(Do(s, acts[0]), acts[1..]);
    }
  }

  /** From rest to rest, with no marking too late, every proposed pattern is owned. */
  lemma RestIsOwned(s: State, acts: seq<Act>)
    requires s.pc == Idle && s.pending == {} && Owned(s.t) && Exec(s, acts) && AlwaysStored(s, acts)
    requires MarksInTime(s, acts)
    requires After(s, acts).pc == Idle && After(s, acts).pending == {}
    ensures Owned(After(s, acts).t)
  {
    hide Exec, AlwaysStored, MarksInTime, AllCovered, Owned;
    CoveredAtRest(s);
    CoveredThroughoutIff(s, acts);
    EndsCovered(s, acts);
    CoveredAtRest(After(s, acts));
  }
}
