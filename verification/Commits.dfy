/** Which proposing nights can fail on the unique group key (src/pae/proposer/service.py,
    the insert of run_proposing), over all replies the model could give. */
module Commits {
  import opened Prelude
  import opened Circle
  import opened Schema
  import opened ProposalGroups
  import opened Proposer

  // ------------------------------------------------- which groups can be drafted

  /** An entity of the group that the registry knows in a domain with a service to call. */
  predicate Drivable(e: string, g: ProposalGroup, n: Night) {
    e in AllowedEntities(AsMined(g)) && e in n.domains && AllowedServices(n.domains[e]) != {}
  }

  /** A trigger that validation lets pass: a clock time at the mean, for a non-negative
      grace; a sun trigger on a day without sun times; or the mined trigger, if known. */
  predicate Triggerable(g: ProposalGroup, n: Night) {
    if g.TodGroup? then n.grace >= 0 || (n.sky.enabled && n.sky.today.None?) else g.trigger in n.domains
  }

  /** Group i has no row yet, and a draft for it can be written. */
  predicate Draftable(n: Night, i: nat)
    requires i < |n.groups|
  {
    && KeyOf(n.groups[i]) !in n.existing && Triggerable(n.groups[i], n)
    && exists e :: e in AllowedEntities(AsMined(n.groups[i])) && Drivable(e, n.groups[i], n)
  }

  /** Parsing lets through well-formed automations only. */
  predicate Parsed(c: Content) { c.automation.Some? ==> WellFormed(c.automation.value) }

  ghost predicate WellParsed(replies: nat -> Reply) {
    forall k :: replies(k).Answer? ==> Parsed(replies(k).content)
  }

  /** Some reply is accepted for a group exactly when the group and the registry offer an
      entity to drive and a trigger to use. */
  lemma DraftableIff(n: Night, i: nat)
    requires i < |n.groups|
    ensures Draftable(n, i)
       <==> KeyOf(n.groups[i]) !in n.existing && exists c: Content :: Parsed(c) && Acceptable(c, n.groups[i], n)
  {
    hide Valid, KeyOf, WellFormed;
    var g := n.groups[i];
    if c: Content :| Parsed(c) && Acceptable(c, g, n) {
      ValidMeansOpen(c.automation.value, g, n);
    }
    if Draftable(n, i) {
      var e :| e in AllowedEntities(AsMined(g)) && Drivable(e, g, n);
      var name :| name in AllowedServices(n.domains[e]);
      var c := Content(true, Some(Simplest(g, n, e, name)), Some("Title"), Some("Reason"));
      SimplestIsValid(g, n, e, name);
      assert c.title.value[0] == 'T' && c.rationale.value[0] == 'R';
      assert Parsed(c) && Acceptable(c, g, n);
    }
  }

  lemma ValidMeansOpen(a: Automation, g: ProposalGroup, n: Night)
    requires WellFormed(a) && Valid(a, AsMined(g), n.domains, n.sky, n.grace)
    ensures Triggerable(g, n) && exists e :: e in AllowedEntities(AsMined(g)) && Drivable(e, g, n)
  {
    ValidActionsAreSafe(a, AsMined(g), n.domains, n.sky, n.grace, 0);
    assert a.actions[0].targets[0] in a.actions[0].targets;
    assert Drivable(a.actions[0].targets[0], g, n);
    if g.PairGroup? {
      assert EntityOk(References(a)[0], AsMined(g), n.domains);
    }
  }

  /** One action on one entity, under the trigger the group suggests. */
  function Simplest(g: ProposalGroup, n: Night, e: string, name: string): Automation
    requires e in n.domains
  {
    Automation(match g
               case TodGroup(_, _, mean) => if n.grace >= 0 then TimeTrigger(mean % DAY) else SunTrigger(Sunrise, 0)
               case PairGroup(trigger, state, _) => StateTrigger(trigger, state),
               [], [Action(n.domains[e] + ['.'] + name, [e])])
  }

  lemma SimplestRefers(g: ProposalGroup, n: Night, e: string, name: string)
    requires e in n.domains
    ensures References(Simplest(g, n, e, name)) == (if g.PairGroup? then [g.trigger] else []) + [e]
  {
    assert Targets(Simplest(g, n, e, name).actions[1..]) == [];
  }

  lemma SimplestAction(n: Night, e: string, name: string)
    requires e in n.domains && name in AllowedServices(n.domains[e])
    ensures ActionOk(Action(n.domains[e] + ['.'] + name, [e]), n.domains)
  {
    hide SplitService;
    SplitJoins(n.domains[e], name);
  }

  lemma SimplestTrigger(g: ProposalGroup, n: Night, e: string, name: string)
    requires Triggerable(g, n) && e in n.domains
    ensures TriggerOk(Simplest(g, n, e, name).trigger, AsMined(g), n.sky, n.grace)
    ensures WellFormed(Simplest(g, n, e, name))
  {
    hide Dist;
    if g.TodGroup? && n.grace >= 0 {
      DistFromOffset(g.mean % DAY, g.mean, g.mean / DAY, 0);
    }
  }

  lemma SimplestIsValid(g: ProposalGroup, n: Night, e: string, name: string)
    requires Triggerable(g, n) && Drivable(e, g, n) && name in AllowedServices(n.domains[e])
    ensures WellFormed(Simplest(g, n, e, name))
    ensures Valid(Simplest(g, n, e, name), AsMined(g), n.domains, n.sky, n.grace)
  {
    hide ActionOk, TriggerOk, WellFormed, References, AllowedServices;
    SimplestRefers(g, n, e, name);
    SimplestAction(n, e, name);
    SimplestTrigger(g, n, e, name);
  }

  // ------------------------------------------------------ which nights can fail

  ghost predicate SharesKey(n: Night, i: nat, j: nat) {
    i < j < |n.groups| && KeyOf(n.groups[i]) == KeyOf(n.groups[j]) && Draftable(n, i) && Draftable(n, j)
  }

  ghost function WithReplies(n: Night, replies: nat -> Reply): Night { n.(replies := replies) }

  /** How many groups before k have no row: the calls made if every first call fails. */
  ghost function Unknown(n: Night, k: nat): nat
    requires k <= |n.groups|
  {
    if k == 0 then 0 else Unknown(n, k - 1) + if KeyOf(n.groups[k - 1]) in n.existing then 0 else 1
  }

  lemma {:induction false} UnknownGrows(n: Night, i: nat, j: nat)
    requires i < j <= |n.groups| && KeyOf(n.groups[i]) !in n.existing
    ensures Unknown(n, i) < Unknown(n, j)
    decreases j
  {
    hide KeyOf;
    if i < j - 1 {
      UnknownGrows(n, i, j - 1);
    }
  }

  /** Replies that propose x at call a and y at call b, and fail otherwise. */
  function TwoReplies(a: nat, x: Content, b: nat, y: Content): nat -> Reply {
    (c: nat) => if c == a then Answer(x) else if c == b then Answer(y) else LlmError
  }

  /** No reply of the night asks for a second call. */
  ghost predicate SingleCalls(n: Night, k: nat)
    requires k <= |n.groups|
  {
    forall i: nat :: i < k ==> SingleCall(n, i)
  }

  ghost predicate SingleCall(n: Night, i: nat)
    requires i < |n.groups|
  {
    KeyOf(n.groups[i]) !in n.existing ==> !AsksAgain(n.groups[i], n.replies(Unknown(n, i)), n)
  }

  lemma {:induction false} CallsAreUnknown(n: Night, k: nat)
    requires k <= |n.groups| && SingleCalls(n, k)
    ensures CallsBefore(n, k) == Unknown(n, k)
  {
    hide Acceptable, KeyOf, AsksAgain;
    if k > 0 {
      CallsAreUnknown(n, k - 1);
      assert SingleCall(n, k - 1);
    }
  }

  lemma UnknownIgnoresReplies(n: Night, replies: nat -> Reply, k: nat)
    requires k <= |n.groups|
    ensures Unknown(WithReplies(n, replies), k) == Unknown(n, k)
  {
  }

  lemma FlagIsNotChecked(n: Night, m: Night, g: ProposalGroup, c: Content)
    requires m == WithReplies(n, m.replies)
    ensures forall p: bool :: Acceptable(c.(propose := p), g, m) <==> Acceptable(c, g, n)
  {
  }

  /** Two draftable groups on one key: some replies draft both. */
  lemma BothDrafted(n: Night, i: nat, j: nat) returns (replies: nat -> Reply)
    requires SharesKey(n, i, j)
    ensures WellParsed(replies) && DraftsClash(WithReplies(n, replies), i, j)
  {
    hide KeyOf, Acceptable, Draftable, WellFormed;
    DraftableIff(n, i);
    DraftableIff(n, j);
    var x: Content :| Parsed(x) && Acceptable(x, n.groups[i], n);
    var y: Content :| Parsed(y) && Acceptable(y, n.groups[j], n);
    FlagIsNotChecked(n, n, n.groups[i], x);
    FlagIsNotChecked(n, n, n.groups[j], y);
    x, y := x.(propose := true), y.(propose := true);
    replies := TwoReplies(Unknown(n, i), x, Unknown(n, j), y);
    DraftedByFirst(n, replies, i, j, x, y);
  }

  /** With these replies, groups i and j are each drafted by a first call. */
  lemma DraftedByFirst(n: Night, replies: nat -> Reply, i: nat, j: nat, x: Content, y: Content)
    requires SharesKey(n, i, j) && replies == TwoReplies(Unknown(n, i), x, Unknown(n, j), y)
    requires x.propose && y.propose && Acceptable(x, n.groups[i], n) && Acceptable(y, n.groups[j], n)
    ensures DraftsClash(WithReplies(n, replies), i, j)
  {
    hide KeyOf, Acceptable, DraftOf;
    var m := WithReplies(n, replies);
    UnknownGrows(n, i, j);
    FlagIsNotChecked(n, m, n.groups[i], x);
    FlagIsNotChecked(n, m, n.groups[j], y);
    assert x.(propose := true) == x && y.(propose := true) == y;
    forall k: nat | k < j ensures SingleCall(m, k) {
      UnknownIgnoresReplies(n, replies, k);
      if KeyOf(n.groups[k]) !in n.existing {
        UnknownGrows(n, k, j);
        if k < i {
          UnknownGrows(n, k, i);
        } else if i < k {
          UnknownGrows(n, i, k);
        }
      }
    }
    CallsAreUnknown(m, i);
    CallsAreUnknown(m, j);
    UnknownIgnoresReplies(n, replies, i);
    UnknownIgnoresReplies(n, replies, j);
  }

  ghost predicate AlwaysCommits(n: Night) {
    forall replies: nat -> Reply | WellParsed(replies) :: DraftKeysDistinct(Drafts(WithReplies(n, replies), |n.groups|))
  }

  /** A night commits whatever the model replies exactly when no two groups without a
      stored proposal that could be drafted share a key. */
  lemma AlwaysCommitsIff(n: Night)
    ensures AlwaysCommits(n) <==> forall i: nat, j: nat :: !SharesKey(n, i, j)
  {
    hide Drafts, DraftKeysDistinct, DraftsClash, SharesKey, WellParsed;
    if forall i: nat, j: nat :: !SharesKey(n, i, j) {
      forall replies: nat -> Reply | WellParsed(replies)
        ensures DraftKeysDistinct(Drafts(WithReplies(n, replies), |n.groups|))
      {
        var m := WithReplies(n, replies);
        DraftsFitTheTable(m, |m.groups|);
        forall i: nat, j: nat | i < j < |m.groups| ensures !DraftsClash(m, i, j) {
          ClashSharesKey(n, replies, i, j);
        }
      }
    }
    if AlwaysCommits(n) {
      forall i: nat, j: nat ensures !SharesKey(n, i, j) {
        SharedKeyCanFail(n, i, j);
      }
    }
  }

  lemma SharedKeyCanFail(n: Night, i: nat, j: nat)
    requires AlwaysCommits(n)
    ensures !SharesKey(n, i, j)
  {
    hide Drafts, DraftKeysDistinct, DraftsClash, WellParsed;
    if SharesKey(n, i, j) {
      var replies := BothDrafted(n, i, j);
      DraftsFitTheTable(WithReplies(n, replies), |n.groups|);
    }
  }

  lemma ClashSharesKey(n: Night, replies: nat -> Reply, i: nat, j: nat)
    requires i < j < |n.groups| && WellParsed(replies)
    ensures DraftsClash(WithReplies(n, replies), i, j) ==> SharesKey(n, i, j)
  {
    hide KeyOf, Acceptable, OutcomeAt, Draftable;
    var m := WithReplies(n, replies);
    if DraftsClash(m, i, j) {
      DraftedMeansDraftable(n, m, i);
      DraftedMeansDraftable(n, m, j);
    }
  }

  lemma DraftedMeansDraftable(n: Night, m: Night, i: nat)
    requires m == WithReplies(n, m.replies) && WellParsed(m.replies) && i < |m.groups| && OutcomeAt(m, i).Drafted?
    ensures Draftable(n, i)
  {
    hide KeyOf, Acceptable, OutcomeAt, Draftable;
    DraftedIsAcceptable(m, i, OutcomeAt(m, i).draft);
    WithdrawnDraftIff(m, i);
    var c := LastReply(m, i).content;
    FlagIsNotChecked(n, m, n.groups[i], c);
    assert c.(propose := c.propose) == c;
    DraftableIff(n, i);
  }
}
