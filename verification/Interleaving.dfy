/** The same tables under statement-level interleaving: while a night's statements run
    one by one, the miner may upsert and the operator may decide between any two. */
module Interleaving {
  import opened ProposalGroups
  import opened Lifecycle
  import P = PatternKeys
  import S = ShadowRuns

  /** The statement of run_proposing that comes next. */
  datatype Pc = Idle | Touching | Reviving | Inserting | Marking | Selecting | Sweeping | Reverting

  /** `gone` and `revert` are the rows the sweep's SELECT returned; `pending` are the
      rejections whose pattern update has not run yet. */
  datatype State = State(
    t: Tables, pc: Pc, plan: Plan, groups: Present, gone: set<GroupKey>, revert: set<P.Key>, pending: set<GroupKey>)

  datatype Act =
    | Begin(plan: Plan, groups: Present)
    | Advance
    | Mine(pattern: P.Key)
    | Flip(key: GroupKey, status: S.Status)
    | RejectSources(key: GroupKey)

  ghost predicate Enabled(s: State, a: Act) {
    match a
    case Begin(plan, groups) => s.pc.Idle? && Fits(plan, Statuses(s.t.proposals), groups) && plan.cutoff <= plan.now
    case Advance => !s.pc.Idle?
    case Mine(_) => true
    case Flip(k, status) => (status == S.Approved || status == S.Rejected) && Actionable(s.t.proposals, k)
    case RejectSources(k) => k in s.pending && k in s.t.proposals
  }

  function Statement(s: State): State {
    var t, plan := s.t, s.plan;
    match s.pc
    case Idle => s
    case Touching => s.(t := t.(proposals := Touch(t.proposals, plan.live, plan.now)), pc := Reviving)
    case Reviving => s.(t := t.(proposals := Revive(t.proposals, plan.stale, plan.now)), pc := Inserting)
    case Inserting => s.(t := t.(proposals := t.proposals + plan.inserts), pc := Marking)
    case Marking => s.(t := t.(patterns := Move(t.patterns, plan.marks, P.New, P.Proposed)), pc := Selecting)
    case Selecting =>
      var gone := GoneStale(t.proposals, plan.cutoff);
      s.(gone := gone, revert := SourcesOf(t.proposals, gone), pc := Sweeping)
    case Sweeping => s.(t := t.(proposals := Sweep(t.proposals, s.gone)), pc := Reverting)
    case Reverting => s.(t := t.(patterns := Move(t.patterns, s.revert, P.Proposed, P.New)), pc := Idle)
  }

  function Do(s: State, a: Act): State {
    match a
    case Begin(plan, groups) => s.(plan := plan, groups := groups, pc := Touching)
    case Advance => Statement(s)
    case Mine(key) => s.(t := s.t.(patterns := Upsert(s.t.patterns, {key})))
    case Flip(k, status) =>
      if k !in s.t.proposals then s
      else s.(t := s.t.(proposals := WithStatus(s.t.proposals, k, status)),
              pending := if status == S.Rejected then s.pending + {k} else s.pending)
    case RejectSources(k) =>
      if k !in s.t.proposals then s
      else s.(t := s.t.(patterns := Move(s.t.patterns, s.t.proposals[k].sources, P.Proposed, P.Rejected)),
          pending := s.pending - {k})
  }

  ghost predicate Exec(s: State, acts: seq<Act>)
    decreases |acts|
  {
    acts != [] ==> Enabled(s, acts[0]) && Exec(Do(s, acts[0]), acts[1..])
  }

  function After(s: State, acts: seq<Act>): State
    decreases |acts|
  {
    if acts == [] then s else After(Do(s, acts[0]), acts[1..])
  }

  // -------------------------------------------------- what every statement keeps

  /** The drafts still to be inserted are for groups without a row, and the rows the
      sweep selected exist. */
  ghost predicate Sound(s: State) {
    && (s.pc in {Touching, Reviving, Inserting} ==> forall k :: k in s.plan.inserts ==> k !in s.t.proposals)
    && (s.pc == Sweeping ==> forall k :: k in s.gone ==> k in s.t.proposals)
  }

  lemma StepKeepsSound(s: State, a: Act)
    requires Sound(s) && Enabled(s, a)
    ensures Sound(Do(s, a))
  {
  }

  /** The insert never meets the unique index, whatever runs in between. */
  lemma {:induction false} InsertNeverCollides(s: State, acts: seq<Act>)
    requires Sound(s) && Exec(s, acts)
    ensures Sound(After(s, acts))
    ensures After(s, acts).pc == Inserting ==> After(s, acts).plan.inserts.Keys !! After(s, acts).t.proposals.Keys
    decreases |acts|
  {
    hide Enabled, Do;
    if acts != [] {
      StepKeepsSound(s, acts[0]);
      InsertNeverCollides(Do(s, acts[0]), acts[1..]);
    }
  }

  lemma StepKeepsPattern(s: State, a: Act, p: P.Key)
    requires p in s.t.patterns
    ensures p in Do(s, a).t.patterns
    ensures s.t.patterns[p] == P.Rejected ==> Do(s, a).t.patterns[p] == P.Rejected
  {
  }

  /** A pattern's rejection absorbs every interleaving. */
  lemma {:induction false} PatternRejectionAbsorbs(s: State, acts: seq<Act>, p: P.Key)
    requires Exec(s, acts) && p in s.t.patterns && s.t.patterns[p] == P.Rejected
    ensures p in After(s, acts).t.patterns && After(s, acts).t.patterns[p] == P.Rejected
    decreases |acts|
  {
    hide Enabled, Do;
    if acts != [] {
      StepKeepsPattern(s, acts[0], p);
      PatternRejectionAbsorbs(Do(s, acts[0]), acts[1..], p);
    }
  }

  /** One statement can undo a proposal's rejection, and only for the rows its SELECT
      had returned: the revive and every other statement respect it. */
  lemma RejectionUndoneIff(s: State, a: Act, k: GroupKey)
    requires Sound(s) && Enabled(s, a) && k in s.t.proposals && s.t.proposals[k].status == S.Rejected
    ensures k in Do(s, a).t.proposals
    ensures Do(s, a).t.proposals[k].status != S.Rejected <==> a.Advance? && s.pc == Sweeping && k in s.gone
  {
  }

  // --------------------------------------- with the sweep's two statements as one

  /** Nothing runs between the sweep's SELECT and its UPDATE. */
  ghost predicate SweepsUnbroken(s: State, acts: seq<Act>)
    decreases |acts|
  {
    acts != [] ==> (s.pc == Sweeping ==> acts[0].Advance?) && SweepsUnbroken(Do(s, acts[0]), acts[1..])
  }

  ghost predicate GoneAreLive(s: State) {
    s.pc == Sweeping ==> forall k :: k in s.gone ==> k in s.t.proposals && LiveStatus(s.t.proposals[k].status)
  }

  lemma StepKeepsGoneLive(s: State, a: Act)
    requires GoneAreLive(s) && Enabled(s, a) && (s.pc == Sweeping ==> a.Advance?)
    ensures GoneAreLive(Do(s, a))
  {
  }

  /** Then a rejected proposal stays rejected over every run. */
  lemma {:induction false} ProposalRejectionIsFinal(s: State, acts: seq<Act>, k: GroupKey)
    requires Sound(s) && GoneAreLive(s) && Exec(s, acts) && SweepsUnbroken(s, acts)
    requires k in s.t.proposals && s.t.proposals[k].status == S.Rejected
    ensures k in After(s, acts).t.proposals && After(s, acts).t.proposals[k].status == S.Rejected
    decreases |acts|
  {
    hide Enabled, Do, Sound;
    if acts != [] {
      StepKeepsSound(s, acts[0]);
      StepKeepsGoneLive(s, acts[0]);
      RejectionUndoneIff(s, acts[0], k);
      ProposalRejectionIsFinal(Do(s, acts[0]), acts[1..], k);
    }
  }

  // ------------------------------------------------- uninterrupted means atomic

  function Statements(): seq<Act> { [Advance, Advance, Advance, Advance, Advance, Advance, Advance] }

  lemma SevenStatements(s: State)
    ensures After(s, Statements()) == Statement(Statement(Statement(Statement(Statement(Statement(Statement(s)))))))
  {
  }

  /** Run without interruption, the seven statements are the one atomic night. */
  lemma UninterruptedIsAtomic(s: State, plan: Plan, groups: Present)
    requires Enabled(s, Begin(plan, groups))
    ensures var s' := After(Do(s, Begin(plan, groups)), Statements());
            s'.pc == Idle && s'.t == AfterNight(s.t, plan) && s'.pending == s.pending
  {
    hide Touch, Revive, Move, GoneStale, SourcesOf, Sweep;
    SevenStatements(Do(s, Begin(plan, groups)));
  }

  /** A decision's two statements without interruption are the one decision. */
  lemma UninterruptedDecision(s: State, k: GroupKey)
    requires Enabled(s, Flip(k, S.Rejected)) && k !in s.pending
    ensures Enabled(Do(s, Flip(k, S.Rejected)), RejectSources(k))
    ensures Do(Do(s, Flip(k, S.Rejected)), RejectSources(k)) == s.(t := Decide(s.t, k, S.Rejected))
    ensures Do(s, Flip(k, S.Approved)) == s.(t := Decide(s.t, k, S.Approved))
  {
    hide Move;
    assert s.pending + {k} - {k} == s.pending;
  }

  // ----------------------------------------------------------- counterexamples

  lemma {:induction false} OneMore(s: State, acts: seq<Act>, a: Act)
    requires Exec(s, acts) && Enabled(After(s, acts), a)
    ensures Exec(s, acts + [a]) && After(s, acts + [a]) == Do(After(s, acts), a)
    decreases |acts|
  {
    hide Enabled, Do;
    if acts == [] {
      assert (acts + [a])[1..] == [];
    } else {
      assert (acts + [a])[1..] == acts[1..] + [a];
      OneMore(Do(s, acts[0]), acts[1..], a);
    }
  }

  /** A table with one overdue shadowing proposal, at the start of a night. */
  function Overdue(g: GroupKey, pc: Pc, gone: set<GroupKey>): State {
    State(Tables(map[], map[g := Proposal(S.Shadowing, {}, 0)]), pc, Plan({}, {}, map[], {}, 100, 50), map[], gone, {},
        {})
  }

  lemma OverdueIsSelected(g: GroupKey)
    ensures Statement(Overdue(g, Touching, {})) == Overdue(g, Reviving, {})
    ensures Statement(Overdue(g, Reviving, {})) == Overdue(g, Inserting, {})
    ensures Statement(Overdue(g, Inserting, {})) == Overdue(g, Marking, {})
    ensures Statement(Overdue(g, Marking, {})) == Overdue(g, Selecting, {})
    ensures Statement(Overdue(g, Selecting, {})) == Overdue(g, Sweeping, {g})
  {
  }

  /** Between the sweep's SELECT and its UPDATE, an operator's rejection is lost. */
  lemma SweepUndoesRejection(g: GroupKey) returns (s: State, acts: seq<Act>)
    ensures s.pc == Idle && s.pending == {} && Sound(s) && Exec(s, acts + [Flip(g, S.Rejected), Advance])
    ensures var s' := After(s, acts + [Flip(g, S.Rejected), Advance]);
            g in s'.t.proposals && s'.t.proposals[g].status == S.Stale
  {
    hide Statement, Exec;
    s := Overdue(g, Idle, {});
    var begin := Begin(s.plan, map[]);
    OverdueIsSelected(g);
    acts := [begin];
    assert Exec(s, acts) && After(s, acts) == Overdue(g, Touching, {}) by {
      NightBegins(g);
    }
    for i := 0 to 5
      invariant Exec(s, acts)
      invariant After(s, acts) == if i < 5 then Overdue(g, [Touching, Reviving, Inserting, Marking, Selecting][i], {})
          else Overdue(g, Sweeping, {g})
    {
      OneMore(s, acts, Advance);
      acts := acts + [Advance];
    }
    OneMore(s, acts, Flip(g, S.Rejected));
    OneMore(s, acts + [Flip(g, S.Rejected)], Advance);
    assert acts + [Flip(g, S.Rejected)] + [Advance] == acts + [Flip(g, S.Rejected), Advance];
    SweptAnyway(g, After(s, acts + [Flip(g, S.Rejected)]));
  }

  lemma NightBegins(g: GroupKey)
    ensures var s := Overdue(g, Idle, {});
            Exec(s, [Begin(s.plan, map[])]) && After(s, [Begin(s.plan, map[])]) == Overdue(g, Touching, {})
  {
  }

  lemma SweptAnyway(g: GroupKey, s: State)
    requires s.pc == Sweeping && g in s.gone && g in s.t.proposals
    ensures g in Statement(s).t.proposals && Statement(s).t.proposals[g].status == S.Stale
  {
  }

  /** One stale proposal with one source, whose group is present again. */
  function Returning(g: GroupKey, p: P.Key, status: S.Status, mark: P.Status, pc: Pc): State {
    State(Tables(map[p := mark], map[g := Proposal(status, {p}, 0)]), pc, Plan({}, {g}, map[], {p}, 100, 0),
          map[g := {p}], {}, {}, {})
  }

  lemma RejectedIsSpared(g: GroupKey, p: P.Key)
    ensures Statement(Returning(g, p, S.Rejected, P.New, Touching)) == Returning(g, p, S.Rejected, P.New, Reviving)
    ensures Statement(Returning(g, p, S.Rejected, P.New, Reviving)) == Returning(g, p, S.Rejected, P.New, Inserting)
    ensures Statement(Returning(g, p, S.Rejected, P.New, Inserting)) == Returning(g, p, S.Rejected, P.New, Marking)
    ensures Statement(Returning(g, p, S.Rejected, P.New, Marking)) == Returning(g, p, S.Rejected, P.Proposed, Selecting)
  {
  }

  lemma NothingIsSwept(g: GroupKey, p: P.Key)
    ensures Statement(Returning(g, p, S.Rejected, P.Proposed, Selecting))
        == Returning(g, p, S.Rejected, P.Proposed, Sweeping)
    ensures Statement(Returning(g, p, S.Rejected, P.Proposed, Sweeping))
        == Returning(g, p, S.Rejected, P.Proposed, Reverting)
    ensures Statement(Returning(g, p, S.Rejected, P.Proposed, Reverting))
        == Returning(g, p, S.Rejected, P.Proposed, Idle)
  {
  }

  lemma RejectedMeanwhile(g: GroupKey, p: P.Key)
    ensures var s := Returning(g, p, S.Stale, P.New, Idle);
            var acts := [Begin(s.plan, map[g := {p}]), Flip(g, S.Rejected), RejectSources(g)];
            Exec(s, acts) && After(s, acts) == Returning(g, p, S.Rejected, P.New, Touching)
  {
    var s := Returning(g, p, S.Stale, P.New, Idle);
    var groups: Present := map[g := {p}];
    var a, b, c := Begin(s.plan, groups), Flip(g, S.Rejected), RejectSources(g);
    assert [a, b, c][1..] == [b, c] && [b, c][1..] == [c] && [c][1..] == [];
    assert Statuses(s.t.proposals)[g] == S.Stale && MarkedBy(s.plan, groups, g, p);
    assert Fits(s.plan, Statuses(s.t.proposals), groups);
    assert Enabled(s, a);
    var s1 := Do(s, a);
    assert Enabled(s1, b);
    var s2 := Do(s1, b);
    assert Enabled(s2, c);
    assert Do(s2, c) == Returning(g, p, S.Rejected, P.New, Touching);
    assert Exec(s2, [c]) && After(s2, [c]) == Do(s2, c);
    assert Exec(s1, [b, c]) && After(s1, [b, c]) == Do(s2, c);
  }

  /** The guarded revive spares a proposal rejected during the model's calls, but its
      patterns are marked all the same: "proposed" with no live proposal, although the
      group brought stored keys only. */
  lemma RejectionRacesMarking(g: GroupKey, p: P.Key) returns (s: State, acts: seq<Act>)
    ensures s.pc == Idle && s.pending == {} && Owned(s.t) && Exec(s, acts)
    ensures After(s, acts).pc == Idle && After(s, acts).pending == {} && !Owned(After(s, acts).t)
  {
    hide Statement, Exec;
    s := Returning(g, p, S.Stale, P.New, Idle);
    acts := [Begin(s.plan, map[g := {p}]), Flip(g, S.Rejected), RejectSources(g)];
    RejectedMeanwhile(g, p);
    RejectedIsSpared(g, p);
    NothingIsSwept(g, p);
    for i := 0 to 7
      invariant Exec(s, acts)
      invariant After(s, acts) == Returning(g, p, S.Rejected, if i < 4 then P.New else P.Proposed,
                                            [Touching, Reviving, Inserting, Marking, Selecting, Sweeping, Reverting,
                                                Idle][i])
    {
      OneMore(s, acts, Advance);
      acts := acts + [Advance];
    }
    var t := After(s, acts).t;
    assert t.patterns[p] == P.Proposed;
    forall k ensures !Owner(t, k, p) {
    }
  }
}
