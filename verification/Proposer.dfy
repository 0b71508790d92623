/** The proposer's decision core (src/pae/proposer/service.py, _process_groups): which
    groups are skipped, revived or drafted, and what every draft satisfies. The language
    model is an arbitrary sequence of replies. */
module Proposer {
  import opened Prelude
  import opened Schema
  import opened Gates
  import opened ProposalGroups
  import Shadow
  import S = ShadowRuns
  import PatternKeys

  // --------------------------------------------------------------- the data

  /** `propose` is `content.get("propose") is True`; `automation` is None when it does
      not parse; a missing or non-string title or rationale is None. */
  datatype Content = Content(propose: bool, automation: Option<Automation>, title: Option<string>,
      rationale: Option<string>)

  datatype Reply = LlmError | Answer(content: Content)

  datatype Draft = Draft(
    key: GroupKey, isTod: bool, title: string, rationale: string, automation: Automation,
    sources: seq<PatternKeys.Key>, entities: set<string>, lastEligible: int)

  datatype Counters = Counters(considered: nat, generated: nat, declined: nat, validationFailed: nat, skipped: nat)

  /** What one night works on: the groups, the statuses read from the table, the model's
      successive replies, the registry's domains, and the clock. */
  datatype Night = Night(
    groups: seq<ProposalGroup>, existing: map<GroupKey, S.Status>, replies: nat -> Reply,
    domains: map<string, string>, sky: Sky, grace: int, now: int)

  datatype Outcome = Skipped | Revived | Failed | Declined | Invalid | Drafted(draft: Draft)

  // ------------------------------------------------------------- specification

  function Entities(patterns: seq<Pattern>): set<string> {
    set i | 0 <= i < |patterns| :: patterns[i].entity
  }

  /** The group as the validator sees it. */
  function AsMined(g: ProposalGroup): Group {
    match g
    case TodGroup(_, patterns, mean) => Group(true, Entities(patterns), None, mean)
    case PairGroup(trigger, state, patterns) => Group(false, Entities(patterns), Some((trigger, state)), 0)
  }

  function Sources(patterns: seq<Pattern>): (keys: seq<PatternKeys.Key>)
    ensures |keys| == |patterns| && forall i :: 0 <= i < |keys| ==> keys[i] == patterns[i].key
  {
    seq(|patterns|, i requires 0 <= i < |patterns| => patterns[i].key)
  }

  function KeysIn(patterns: seq<Pattern>): set<PatternKeys.Key> {
    set i | 0 <= i < |patterns| :: patterns[i].key
  }

  predicate Blank(text: string) {
    forall i :: 0 <= i < |text| ==> text[i] in {' ', '\t', '\n', '\r', '\U{B}', '\U{C}'}
  }

  predicate Written(text: Option<string>) { text.Some? && !Blank(text.value) }

  /** Nothing to object to: a valid automation with a title and a rationale. */
  ghost predicate Acceptable(c: Content, g: ProposalGroup, n: Night) {
    && c.automation.Some? && Valid(c.automation.value, AsMined(g), n.domains, n.sky, n.grace)
    && Written(c.title) && Written(c.rationale)
  }

  function DraftOf(c: Content, g: ProposalGroup, now: int): Draft
    requires c.automation.Some? && c.title.Some? && c.rationale.Some?
  {
    Draft(KeyOf(g), g.TodGroup?, c.title.value, c.rationale.value, c.automation.value,
          Sources(g.patterns), AllowedEntities(AsMined(g)), now)
  }

  /** The model gets a second chance only after proposing something unacceptable. */
  ghost predicate AsksAgain(g: ProposalGroup, first: Reply, n: Night) {
    first.Answer? && first.content.propose && !Acceptable(first.content, g, n)
  }

  /** What happens to a group whose first and second calls would be answered so. */
  ghost function OutcomeOf(g: ProposalGroup, first: Reply, second: Reply, n: Night): Outcome {
    if KeyOf(g) in n.existing then (if n.existing[KeyOf(g)] == S.Stale then Revived else Skipped)
    else if first.LlmError? then Failed
    else if !first.content.propose then Declined
    else if Acceptable(first.content, g, n) then Drafted(DraftOf(first.content, g, n.now))
    else if second.Answer? && Acceptable(second.content, g, n) then Drafted(DraftOf(second.content, g, n.now))
    else Invalid
  }

  ghost function CallsOf(g: ProposalGroup, first: Reply, n: Night): nat {
    if KeyOf(g) in n.existing then 0 else if AsksAgain(g, first, n) then 2 else 1
  }

  /** Calls made before group i is looked at. */
  ghost function CallsBefore(n: Night, i: nat): nat
    requires i <= |n.groups|
  {
    if i == 0 then 0 else CallsBefore(n, i - 1) + CallsOf(n.groups[i - 1], n.replies(CallsBefore(n, i - 1)), n)
  }

  ghost function OutcomeAt(n: Night, i: nat): Outcome
    requires i < |n.groups|
  {
    var c := CallsBefore(n, i);
    OutcomeOf(n.groups[i], n.replies(c), n.replies(c + 1), n)
  }

  ghost function Drafts(n: Night, i: nat): seq<Draft>
    requires i <= |n.groups|
  {
    if i == 0 then [] else Drafts(n, i - 1) + (match OutcomeAt(n, i - 1) case Drafted(d) => [d] case _ => [])
  }

  /** Patterns to be marked "proposed": the members of revived and drafted groups. */
  ghost function Marked(n: Night, i: nat): set<PatternKeys.Key>
    requires i <= |n.groups|
  {
    if i == 0 then {}
    else Marked(n, i - 1) + (match OutcomeAt(n, i - 1)
                             case Drafted(_) => KeysIn(n.groups[i - 1].patterns)
                             case Revived => KeysIn(n.groups[i - 1].patterns)
                             case _ => {})
  }

  /** One more group considered, with this outcome. */
  function Bump(c: Counters, o: Outcome): Counters {
    match o
    case Skipped => Counters(c.considered + 1, c.generated, c.declined, c.validationFailed, c.skipped + 1)
    case Revived => Counters(c.considered + 1, c.generated, c.declined, c.validationFailed, c.skipped + 1)
    case Failed => Counters(c.considered + 1, c.generated, c.declined, c.validationFailed, c.skipped)
    case Declined => Counters(c.considered + 1, c.generated, c.declined + 1, c.validationFailed, c.skipped)
    case Invalid => Counters(c.considered + 1, c.generated, c.declined, c.validationFailed + 1, c.skipped)
    case Drafted(_) => Counters(c.considered + 1, c.generated + 1, c.declined, c.validationFailed, c.skipped)
  }

  ghost function Count(n: Night, i: nat): Counters
    requires i <= |n.groups|
  {
    if i == 0 then Counters(0, 0, 0, 0, 0) else Bump(Count(n, i - 1), OutcomeAt(n, i - 1))
  }

  // ------------------------------------------------------------------ the method

  /** Validation errors together with the missing text fields. */
  method CheckContent(c: Content, g: ProposalGroup, n: Night) returns (parsed: Option<Automation>, ok: bool)
    ensures ok <==> Acceptable(c, g, n)
    ensures ok ==> parsed == c.automation
  {
    hide Valid;
    var errors;
    parsed, errors := ValidateProposal(c.automation, AsMined(g), n.domains, n.sky, n.grace);
    ok := errors == [] && Written(c.title) && Written(c.rationale);
  }

  /** One group without a stored proposal: one call, or two. */
  method AskModel(g: ProposalGroup, n: Night, calls: nat) returns (outcome: Outcome, used: nat)
    requires KeyOf(g) !in n.existing
    ensures outcome == OutcomeOf(g, n.replies(calls), n.replies(calls + 1), n)
    ensures used == CallsOf(g, n.replies(calls), n)
    ensures !outcome.Skipped? && !outcome.Revived?
  {
    var resp := n.replies(calls);
    if resp.LlmError? {
      return Failed, 1;
    }
    var content := resp.content;
    if !content.propose {
      return Declined, 1;
    }
    used := 1;
    var parsed, ok := CheckContent(content, g, n);
    if !ok {
      used := 2;
      resp := n.replies(calls + 1);
      if resp.LlmError? {
        return Invalid, used;
      }
      content := resp.content;
      parsed, ok := CheckContent(content, g, n);
      if !ok {
        return Invalid, used;
      }
    }
    outcome := Drafted(Draft(KeyOf(g), g.TodGroup?, content.title.value, content.rationale.value, parsed.value,
                             Sources(g.patterns), AllowedEntities(AsMined(g)), n.now));
  }

  lemma KnownGroup(n: Night, i: nat)
    requires i < |n.groups| && KeyOf(n.groups[i]) in n.existing
    ensures OutcomeAt(n, i) == if n.existing[KeyOf(n.groups[i])] == S.Stale then Revived else Skipped
    ensures CallsOf(n.groups[i], n.replies(CallsBefore(n, i)), n) == 0
  {
  }

  /** The loop over the night's groups. */
  method ProcessGroups(n: Night) returns (counters: Counters, inserts: seq<Draft>, updates: set<PatternKeys.Key>,
                       calls: nat)
    ensures calls == CallsBefore(n, |n.groups|)
    ensures counters == Count(n, |n.groups|)
    ensures inserts == Drafts(n, |n.groups|)
    ensures updates == Marked(n, |n.groups|)
  {
    hide OutcomeOf, CallsOf, KeysIn, KeyOf;
    counters, inserts, updates, calls := Counters(0, 0, 0, 0, 0), [], {}, 0;
    for i := 0 to |n.groups|
      invariant calls == CallsBefore(n, i) && counters == Count(n, i)
      invariant inserts == Drafts(n, i) && updates == Marked(n, i)
    {
      var g := n.groups[i];
      counters := counters.(considered := counters.considered + 1);
      if KeyOf(g) in n.existing {
        KnownGroup(n, i);
        counters := counters.(skipped := counters.skipped + 1);
        if n.existing[KeyOf(g)] == S.Stale {
          updates := updates + KeysIn(g.patterns);
        }
      } else {
        var outcome, used := AskModel(g, n, calls);
        assert outcome == OutcomeAt(n, i);
        calls := calls + used;
        match outcome {
          case Failed =>
          case Declined => counters := counters.(declined := counters.declined + 1);
          case Invalid => counters := counters.(validationFailed := counters.validationFailed + 1);
          case Drafted(draft) =>
            inserts := inserts + [draft];
            counters := counters.(generated := counters.generated + 1);
            updates := updates + KeysIn(g.patterns);
        }
      }
    }
  }

  // ------------------------------------------------------------------ accounting

  /** First calls that failed: counted nowhere by the source. */
  ghost function Failures(n: Night, i: nat): nat
    requires i <= |n.groups|
  {
    if i == 0 then 0 else Failures(n, i - 1) + if OutcomeAt(n, i - 1).Failed? then 1 else 0
  }

  function Settled(c: Counters): nat { c.generated + c.declined + c.validationFailed + c.skipped }

  /** Every group considered is accounted for once. */
  lemma {:induction false} EveryGroupIsCounted(n: Night, i: nat)
    requires i <= |n.groups|
    ensures Count(n, i).considered == i == Settled(Count(n, i)) + Failures(n, i)
  {
    hide OutcomeAt, Bump;
    if i > 0 {
      EveryGroupIsCounted(n, i - 1);
      BumpAddsOne(Count(n, i - 1), OutcomeAt(n, i - 1));
    }
  }

  /** Each group counted as generated is one insert. */
  lemma {:induction false} EveryDraftIsCounted(n: Night, i: nat)
    requires i <= |n.groups|
    ensures Count(n, i).generated == |Drafts(n, i)|
  {
    hide OutcomeAt, Bump;
    if i > 0 {
      EveryDraftIsCounted(n, i - 1);
      BumpAddsOne(Count(n, i - 1), OutcomeAt(n, i - 1));
    }
  }

  /** The model is asked once or twice about each unknown group and never about a known one. */
  lemma {:induction false} AtMostTwoCalls(n: Night, i: nat)
    requires i <= |n.groups|
    ensures i - Count(n, i).skipped <= CallsBefore(n, i) <= 2 * (i - Count(n, i).skipped)
  {
    hide OutcomeAt, CallsOf, Bump;
    if i > 0 {
      AtMostTwoCalls(n, i - 1);
      CallsFitOutcome(n, i - 1);
      BumpAddsOne(Count(n, i - 1), OutcomeAt(n, i - 1));
    }
  }

  lemma BumpAddsOne(c: Counters, o: Outcome)
    ensures var d := Bump(c, o);
            && d.considered == c.considered + 1
            && Settled(d) == Settled(c) + (if o.Failed? then 0 else 1)
            && d.generated == c.generated + (if o.Drafted? then 1 else 0)
            && d.skipped == c.skipped + (if o.Skipped? || o.Revived? then 1 else 0)
  {
  }

  lemma CallsFitOutcome(n: Night, i: nat)
    requires i < |n.groups|
    ensures var calls := CallsOf(n.groups[i], n.replies(CallsBefore(n, i)), n);
            if OutcomeAt(n, i).Skipped? || OutcomeAt(n, i).Revived? then calls == 0 else 1 <= calls <= 2
  {
  }

  /** Why group i met its fate, from the statuses read and the replies to its calls. */
  lemma OutcomeIs(n: Night, i: nat)
    requires i < |n.groups|
    ensures var o, k, g := OutcomeAt(n, i), KeyOf(n.groups[i]), n.groups[i];
            var first, second := n.replies(CallsBefore(n, i)), n.replies(CallsBefore(n, i) + 1);
            && (o == Revived <==> k in n.existing && n.existing[k] == S.Stale)
            && (o == Skipped <==> k in n.existing && n.existing[k] != S.Stale)
            && (o == Failed <==> k !in n.existing && first == LlmError)
            && (o == Declined <==> k !in n.existing && first.Answer? && !first.content.propose)
            && (o.Drafted? <==>
                  k !in n.existing && first.Answer? && first.content.propose
                  && (Acceptable(first.content, g, n) || (second.Answer? && Acceptable(second.content, g, n))))
            && (o == Invalid <==>
                  k !in n.existing && first.Answer? && first.content.propose
                  && !Acceptable(first.content, g, n) && !(second.Answer? && Acceptable(second.content, g, n)))
    ensures var first, k := n.replies(CallsBefore(n, i)), KeyOf(n.groups[i]);
            CallsBefore(n, i + 1) == CallsBefore(n, i)
              + if k in n.existing then 0
                else if first.Answer? && first.content.propose && !Acceptable(first.content, n.groups[i], n) then 2
                else 1
  {
    hide Acceptable, KeyOf, DraftOf;
  }

  /** How many of the first k groups met this fate. */
  ghost function Fates(n: Night, k: nat, meets: Outcome -> bool): nat
    requires k <= |n.groups|
  {
    |set i: nat | i < k && meets(OutcomeAt(n, i))|
  }

  lemma OneMoreFate(n: Night, k: nat, meets: Outcome -> bool)
    requires k < |n.groups|
    ensures Fates(n, k + 1, meets) == Fates(n, k, meets) + if meets(OutcomeAt(n, k)) then 1 else 0
  {
    hide OutcomeAt;
    var before := set i: nat | i < k && meets(OutcomeAt(n, i));
    var after := set i: nat | i < k + 1 && meets(OutcomeAt(n, i));
    assert after == if meets(OutcomeAt(n, k)) then before + {k} else before;
  }

  /** The counters count what they are named after. */
  lemma {:induction false} CountersAre(n: Night, k: nat)
    requires k <= |n.groups|
    ensures var c := Count(n, k);
            && c.generated == Fates(n, k, (o: Outcome) => o.Drafted?)
            && c.declined == Fates(n, k, (o: Outcome) => o == Declined)
            && c.validationFailed == Fates(n, k, (o: Outcome) => o == Invalid)
            && c.skipped == Fates(n, k, (o: Outcome) => o == Skipped || o == Revived)
  {
    hide OutcomeAt;
    if k > 0 {
      CountersAre(n, k - 1);
      OneMoreFate(n, k - 1, (o: Outcome) => o.Drafted?);
      OneMoreFate(n, k - 1, (o: Outcome) => o == Declined);
      OneMoreFate(n, k - 1, (o: Outcome) => o == Invalid);
      OneMoreFate(n, k - 1, (o: Outcome) => o == Skipped || o == Revived);
    }
  }

  // ------------------------------------------------------ where drafts come from

  /** d is made from some content that is acceptable for group i. */
  ghost predicate DraftedFrom(n: Night, i: nat, d: Draft)
    requires i < |n.groups|
  {
    exists c: Content :: Acceptable(c, n.groups[i], n) && d == DraftOf(c, n.groups[i], n.now)
  }

  lemma {:induction false} DraftOrigin(n: Night, k: nat, d: Draft)
    requires k <= |n.groups|
    ensures d in Drafts(n, k) <==> exists i: nat :: i < k && OutcomeAt(n, i) == Drafted(d)
  {
    hide OutcomeAt;
    if k > 0 {
      DraftOrigin(n, k - 1, d);
      if i: nat :| i < k && OutcomeAt(n, i) == Drafted(d) {
        assert i == k - 1 || i < k - 1;
      }
    }
  }

  lemma DraftedIsAcceptable(n: Night, i: nat, d: Draft)
    requires i < |n.groups| && OutcomeAt(n, i) == Drafted(d)
    ensures DraftedFrom(n, i, d) && d.key == KeyOf(n.groups[i]) && d.key !in n.existing
  {
  }

  /** The reply a drafted group's content is taken from. */
  ghost function LastReply(n: Night, i: nat): Reply
    requires i < |n.groups|
  {
    var c := CallsBefore(n, i);
    if AsksAgain(n.groups[i], n.replies(c), n) then n.replies(c + 1) else n.replies(c)
  }

  /** What an insert says: the first acceptable reply's texts and automation, and its
      group's kind, key, pattern keys in order and entities, the trigger's included. */
  lemma DraftSays(n: Night, i: nat)
    requires i < |n.groups| && OutcomeAt(n, i).Drafted?
    ensures LastReply(n, i).Answer?
    ensures var d, c, g := OutcomeAt(n, i).draft, LastReply(n, i).content, n.groups[i];
            && Legible(d.title) && Legible(d.rationale)
            && Some(d.title) == c.title && Some(d.rationale) == c.rationale && Some(d.automation) == c.automation
            && (d.isTod <==> g.TodGroup?) && d.key == KeyOf(g) && d.lastEligible == n.now
            && |d.sources| == |g.patterns| && (forall k :: 0 <= k < |d.sources| ==> d.sources[k] == g.patterns[k].key)
            && (forall e :: e in d.entities <==>
                  (exists p :: p in g.patterns && p.entity == e) || (g.PairGroup? && e == g.trigger))
    ensures exists c :: Acceptable(c, n.groups[i], n) && LastReply(n, i) == Answer(c)
  {
    hide Acceptable, KeyOf;
    WithdrawnDraftIff(n, i);
    var d, g := OutcomeAt(n, i).draft, n.groups[i];
    forall e ensures e in Entities(g.patterns) <==> exists p :: p in g.patterns && p.entity == e {
      if p :| p in g.patterns && p.entity == e {
        var k :| 0 <= k < |g.patterns| && g.patterns[k] == p;
      }
    }
    AcceptableParts(LastReply(n, i).content, g, n);
  }

  lemma AcceptableParts(c: Content, g: ProposalGroup, n: Night)
    requires Acceptable(c, g, n)
    ensures c.automation.Some? && c.title.Some? && c.rationale.Some?
    ensures Legible(c.title.value) && Legible(c.rationale.value)
  {
    hide Valid, Legible, Blank;
    LegibleIff(c.title.value);
    LegibleIff(c.rationale.value);
  }

  lemma LegibleIff(text: string)
    ensures Legible(text) <==> !Blank(text)
  {
    if i :| 0 <= i < |text| && text[i] !in {' ', '\t', '\n', '\r', '\U{B}', '\U{C}'} {
      assert text[i] in text;
    }
  }

  /** Something is left when white space is stripped. */
  predicate Legible(text: string) {
    exists ch :: ch in text && ch !in [' ', '\t', '\n', '\r', '\U{B}', '\U{C}']
  }

  /** A draft carries the content of the first acceptable reply. The flag of the second
      reply is not read: a group is drafted from content that says "do not propose" exactly
      when the first reply proposed something unacceptable and the acceptable second one
      withdraws. */
  lemma WithdrawnDraftIff(n: Night, i: nat)
    requires i < |n.groups| && OutcomeAt(n, i).Drafted?
    ensures LastReply(n, i).Answer? && Acceptable(LastReply(n, i).content, n.groups[i], n)
    ensures OutcomeAt(n, i).draft == DraftOf(LastReply(n, i).content, n.groups[i], n.now)
    ensures var first, second := n.replies(CallsBefore(n, i)), n.replies(CallsBefore(n, i) + 1);
            !LastReply(n, i).content.propose
            <==> AsksAgain(n.groups[i], first, n) && second.Answer? && Acceptable(second.content, n.groups[i], n)
                 && !second.content.propose
  {
    hide Acceptable, DraftOf, OutcomeOf, CallsBefore, AsksAgain;
    var c := CallsBefore(n, i);
    DraftedReply(n.groups[i], n.replies(c), n.replies(c + 1), n);
  }

  lemma DraftedReply(g: ProposalGroup, first: Reply, second: Reply, n: Night)
    requires OutcomeOf(g, first, second, n).Drafted?
    ensures var last := if AsksAgain(g, first, n) then second else first;
            && last.Answer? && Acceptable(last.content, g, n)
            && OutcomeOf(g, first, second, n).draft == DraftOf(last.content, g, n.now)
            && (!AsksAgain(g, first, n) ==> last.content.propose)
  {
    hide Acceptable, DraftOf, KeyOf;
  }

  function TurnOnLamp(): Automation {
    Automation(TimeTrigger(0), [], [Action("light" + ['.'] + "turn_on", ["light.lamp"])])
  }

  /** First a proposal without content, then a full draft that says "do not propose". */
  function WithdrawingNight(): Night {
    Night([Alone(Lamp(0, 0))], map[],
          (c: nat) => if c == 0 then Answer(Content(true, None, None, None))
                      else Answer(Content(false, Some(TurnOnLamp()), Some("Lamp"), Some("At midnight"))),
          map["light.lamp" := "light"], Sky(false, None), 3600, 0)
  }

  lemma LampReferences()
    ensures References(TurnOnLamp()) == ["light.lamp"]
    ensures AsMined(Alone(Lamp(0, 0))).isTod && AsMined(Alone(Lamp(0, 0))).mean == 0
    ensures "light.lamp" in AllowedEntities(AsMined(Alone(Lamp(0, 0))))
  {
    assert Alone(Lamp(0, 0)).patterns[0].entity == "light.lamp";
    assert Targets(TurnOnLamp().actions[1..]) == [];
  }

  lemma LampDraftIsValid(n: Night)
    requires n == WithdrawingNight()
    ensures Valid(TurnOnLamp(), AsMined(Alone(Lamp(0, 0))), n.domains, n.sky, n.grace)
  {
    hide SplitService, AsMined, References;
    LampReferences();
    SplitJoins("light", "turn_on");
    assert EntityOk("light.lamp", AsMined(Alone(Lamp(0, 0))), n.domains);
  }

  /** The withdrawn draft is stored. */
  lemma WithdrawnDraftIsStored()
    ensures var n := WithdrawingNight();
            OutcomeAt(n, 0).Drafted? && !LastReply(n, 0).content.propose && |Drafts(n, 1)| == 1
  {
    hide Valid;
    var n := WithdrawingNight();
    LampDraftIsValid(n);
    var c := n.replies(1).content;
    assert c.title.value[0] == 'L' && c.rationale.value[0] == 'A';
    assert Acceptable(c, n.groups[0], n);
  }

  /** A pattern is marked exactly when it is a member of a group drafted or revived. */
  lemma {:induction false} MarkedOrigin(n: Night, k: nat, key: PatternKeys.Key)
    requires k <= |n.groups|
    ensures key in Marked(n, k) <==> exists i: nat :: i < k && MarksGroup(n, i) && key in KeysIn(n.groups[i].patterns)
  {
    hide OutcomeAt, KeysIn;
    if k > 0 {
      MarkedOrigin(n, k - 1, key);
      if i: nat :| i < k && MarksGroup(n, i) && key in KeysIn(n.groups[i].patterns) {
        assert i == k - 1 || i < k - 1;
      }
    }
  }

  ghost predicate MarksGroup(n: Night, i: nat)
    requires i < |n.groups|
  {
    OutcomeAt(n, i).Drafted? || OutcomeAt(n, i).Revived?
  }

  predicate DraftKeysDistinct(drafts: seq<Draft>) {
    forall i, j :: 0 <= i < j < |drafts| ==> drafts[i].key != drafts[j].key
  }

  /** Groups i and j are both drafted, under one key. */
  ghost predicate DraftsClash(n: Night, i: nat, j: nat)
    requires i < |n.groups| && j < |n.groups|
  {
    OutcomeAt(n, i).Drafted? && OutcomeAt(n, j).Drafted? && KeyOf(n.groups[i]) == KeyOf(n.groups[j])
  }

  /** The insert meets the unique index only if two groups of one key are both drafted;
      the keys stored before the night are never touched. */
  lemma {:induction false} DraftsFitTheTable(n: Night, k: nat)
    requires k <= |n.groups|
    ensures DraftKeysDistinct(Drafts(n, k)) <==> forall i: nat, j: nat :: i < j < k ==> !DraftsClash(n, i, j)
    ensures forall d :: d in Drafts(n, k) ==> d.key !in n.existing
  {
    hide OutcomeAt, KeyOf, DraftedFrom, DraftsClash, DraftKeysDistinct;
    if k > 0 {
      DraftsFitTheTable(n, k - 1);
      ClashWithEarlier(n, k - 1);
      if OutcomeAt(n, k - 1).Drafted? {
        var last := OutcomeAt(n, k - 1).draft;
        DraftedIsAcceptable(n, k - 1, last);
        DistinctSnoc(Drafts(n, k - 1), last);
        assert Drafts(n, k) == Drafts(n, k - 1) + [last];
      } else {
        assert Drafts(n, k) == Drafts(n, k - 1);
      }
    } else {
      NoDrafts();
    }
  }

  lemma NoDrafts()
    ensures DraftKeysDistinct([])
  {
  }

  lemma DistinctSnoc(drafts: seq<Draft>, last: Draft)
    ensures DraftKeysDistinct(drafts + [last])
        <==> DraftKeysDistinct(drafts) && forall d :: d in drafts ==> d.key != last.key
  {
    var all := drafts + [last];
    if DraftKeysDistinct(all) {
      forall i, j | 0 <= i < j < |drafts| ensures drafts[i].key != drafts[j].key {
        assert all[i].key != all[j].key;
      }
      forall d | d in drafts ensures d.key != last.key {
        var i :| 0 <= i < |drafts| && drafts[i] == d;
        assert all[i].key != all[|drafts|].key;
      }
    }
  }

  lemma ClashWithEarlier(n: Night, l: nat)
    requires l < |n.groups|
    ensures OutcomeAt(n, l).Drafted? ==>
              ((forall d :: d in Drafts(n, l) ==> d.key != OutcomeAt(n, l).draft.key)
               <==> forall i: nat :: i < l ==> !DraftsClash(n, i, l))
    ensures !OutcomeAt(n, l).Drafted? ==> forall i: nat :: i < l ==> !DraftsClash(n, i, l)
  {
    hide OutcomeAt, KeyOf, DraftedFrom;
    if OutcomeAt(n, l).Drafted? {
      var last := OutcomeAt(n, l).draft;
      DraftedIsAcceptable(n, l, last);
      forall i: nat | i < l && DraftsClash(n, i, l)
        ensures OutcomeAt(n, i).draft in Drafts(n, l) && OutcomeAt(n, i).draft.key == last.key
      {
        DraftedIsAcceptable(n, i, OutcomeAt(n, i).draft);
        DraftOrigin(n, l, OutcomeAt(n, i).draft);
      }
      forall d | d in Drafts(n, l) && d.key == last.key ensures exists i: nat :: i < l && DraftsClash(n, i, l) {
        DraftOrigin(n, l, d);
        var i: nat :| i < l && OutcomeAt(n, i) == Drafted(d);
        DraftedIsAcceptable(n, i, d);
        assert DraftsClash(n, i, l);
      }
    }
  }

  // ------------------------------------------------------------ end-to-end safety

  /** The automation touches only registered entities of the group that are on no
      schedule, and every action is an allowed service of its targets' own domain. */
  ghost predicate Safe(a: Automation, g: ProposalGroup, domains: map<string, string>, flagged: set<string>) {
    && (forall e :: e in References(a) ==> e in AllowedEntities(AsMined(g)) && Clear(e, flagged, domains.Keys))
    && forall i :: 0 <= i < |a.actions| ==> ActionIsSafe(a.actions[i], domains)
  }

  ghost predicate ActionIsSafe(action: Action, domains: map<string, string>) {
    var split := SplitService(action.service);
    && split.Some? && split.value.1 in AllowedServices(split.value.0)
    && forall e :: e in action.targets ==> e in domains && domains[e] == split.value.0
  }

  lemma {:induction false} KnownServicesHaveSlots(actions: seq<Action>)
    requires forall i :: 0 <= i < |actions| ==> Shadow.ExpectedState(actions[i].service).Some?
    ensures Shadow.Slots(actions).Some?
    decreases |actions|
  {
    hide Shadow.ExpectedState, Shadow.SlotsOf;
    if actions != [] {
      KnownServicesHaveSlots(actions[..|actions| - 1]);
    }
  }

  lemma ValidActionsSafe(a: Automation, g: Group, n: Night)
    requires Valid(a, g, n.domains, n.sky, n.grace)
    ensures forall i :: 0 <= i < |a.actions| ==> ActionIsSafe(a.actions[i], n.domains)
  {
    hide Valid, AllowedServices;
    forall i | 0 <= i < |a.actions| ensures ActionIsSafe(a.actions[i], n.domains) {
      ValidActionsAreSafe(a, g, n.domains, n.sky, n.grace, i);
    }
  }

  /** Entities a group may mention were cleared by the gates. */
  lemma AllowedAreClear(eligible: seq<Pattern>, window: int, meanOf: seq<int> -> int, n: Night, i: nat,
                        flagged: set<string>, e: string)
    requires AreGroups(eligible, window, meanOf, n.groups) && i < |n.groups|
    requires forall p :: p in eligible ==>
               Clear(p.entity, flagged, n.domains.Keys)
                   && (p.kind.EventPair? ==> Clear(p.kind.trigger, flagged, n.domains.Keys))
    requires e in AllowedEntities(AsMined(n.groups[i]))
    ensures Clear(e, flagged, n.domains.Keys)
  {
    var g := n.groups[i];
    assert g.patterns == Members(n.groups)[i] && g.patterns != [];
    if e in Entities(g.patterns) {
      var k :| 0 <= k < |g.patterns| && g.patterns[k].entity == e;
      MemberKinds(eligible, window, meanOf, n.groups, i, g.patterns[k]);
    } else {
      MemberKinds(eligible, window, meanOf, n.groups, i, g.patterns[0]);
    }
  }

  lemma ReferencesAreAllowed(a: Automation, g: Group, n: Night, e: string)
    requires Valid(a, g, n.domains, n.sky, n.grace) && e in References(a)
    ensures e in AllowedEntities(g)
  {
  }

  /** From stored patterns to inserted proposal: whatever the model replied. */
  lemma DraftsAreSafe(patterns: seq<Pattern>, l: Limits, window: int, meanOf: seq<int> -> int, n: Night,
                      d: Draft) returns (i: nat)
    requires AreGroups(EligibleOf(patterns, n.domains.Keys, l), window, meanOf, n.groups)
    requires d in Drafts(n, |n.groups|)
    ensures i < |n.groups| && d.key == KeyOf(n.groups[i]) && d.sources == Sources(n.groups[i].patterns)
    ensures Safe(d.automation, n.groups[i], n.domains, SchedFlagged(patterns))
  {
    hide Valid, SchedFlagged, AreGroups, Eligible, ActionIsSafe, AllowedEntities, References;
    DraftOrigin(n, |n.groups|, d);
    i :| i < |n.groups| && OutcomeAt(n, i) == Drafted(d);
    DraftedIsAcceptable(n, i, d);
    var a, g := d.automation, AsMined(n.groups[i]);
    ValidActionsSafe(a, g, n);
    forall p | p in EligibleOf(patterns, n.domains.Keys, l)
      ensures Clear(p.entity, SchedFlagged(patterns), n.domains.Keys)
      ensures p.kind.EventPair? ==> Clear(p.kind.trigger, SchedFlagged(patterns), n.domains.Keys)
    {
      EligibleIsClear(patterns, n.domains.Keys, l, p);
    }
    forall e | e in References(a) ensures e in AllowedEntities(g) && Clear(e, SchedFlagged(patterns), n.domains.Keys) {
      ReferencesAreAllowed(a, g, n, e);
      AllowedAreClear(EligibleOf(patterns, n.domains.Keys, l), window, meanOf, n, i, SchedFlagged(patterns), e);
    }
  }

  lemma EligibleIsClear(patterns: seq<Pattern>, registry: set<string>, l: Limits, p: Pattern)
    requires p in EligibleOf(patterns, registry, l)
    ensures Clear(p.entity, SchedFlagged(patterns), registry)
    ensures p.kind.EventPair? ==> Clear(p.kind.trigger, SchedFlagged(patterns), registry)
  {
    EligibleIsSafe(patterns, registry, l, p);
  }

  /** The evaluator's state lookup never fails on an inserted automation, on any day. */
  lemma SafeMeansEvaluable(a: Automation, g: ProposalGroup, domains: map<string, string>, flagged: set<string>,
                           isPair: bool, day: int, calendar: Shadow.Calendar,
                           dayEvents: seq<Shadow.Event>, adjacent: seq<Shadow.Event>, cfg: Shadow.Config)
    requires Safe(a, g, domains, flagged)
    ensures !Shadow.Evaluate(a, isPair, day, calendar, dayEvents, adjacent, cfg).LookupFailed?
  {
    hide AllowedServices, SplitService;
    forall i | 0 <= i < |a.actions| ensures Shadow.ExpectedState(a.actions[i].service).Some? {
      assert ActionIsSafe(a.actions[i], domains);
      var (domain, name) := SplitService(a.actions[i].service).value;
      AllowedHaveState(domain, name);
    }
    KnownServicesHaveSlots(a.actions);
  }
}
