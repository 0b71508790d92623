/** The constrained automation subset and its validation
    (src/pae/proposer/schema.py), from the parsed automation on. Clock times and
    offsets are in seconds. */
module Schema {
  import opened Prelude
  import opened Circle

  datatype SunEvent = Sunrise | Sunset

  datatype Trigger =
    | TimeTrigger(at: int)
    | SunTrigger(event: SunEvent, offset: int)
    | StateTrigger(entity: string, to: string)

  datatype Condition =
    | TimeCondition(weekdays: Option<set<string>>)
    | StateCondition(entity: string, state: string)
    | SunCondition

  datatype Action = Action(service: string, targets: seq<string>)

  datatype Automation = Automation(trigger: Trigger, conditions: seq<Condition>, actions: seq<Action>)

  /** What a successful parse guarantees: lists are non-empty, clock times valid. */
  predicate WellFormed(a: Automation) {
    && a.actions != []
    && (forall i :: 0 <= i < |a.actions| ==> a.actions[i].targets != [])
    && (a.trigger.TimeTrigger? ==> 0 <= a.trigger.at < DAY)
    && (a.trigger.SunTrigger? ==> -DAY < a.trigger.offset < DAY)
  }

  function AllowedServices(domain: string): set<string> {
    if domain in {"light", "switch", "fan", "media_player"} then {"turn_on", "turn_off"}
    else if domain == "lock" then {"lock", "unlock"}
    else if domain == "cover" then {"open_cover", "close_cover"}
    else {}
  }

  const SERVICE_STATE: map<string, string> := map[
    "turn_on" := "on", "turn_off" := "off", "lock" := "locked", "unlock" := "unlocked",
    "open_cover" := "open", "close_cover" := "closed"]

  /** service.split(".", 1), when there is a dot. */
  function SplitService(service: string): (r: Option<(string, string)>)
    ensures r.None? <==> '.' !in service
    ensures r.Some? ==> service == r.value.0 + ['.'] + r.value.1 && '.' !in r.value.0
  {
    if service == [] then None
    else if service[0] == '.' then Some(([], service[1..]))
    else match SplitService(service[1..])
         case None => None
         case Some((d, n)) => Some(([service[0]] + d, n))
  }

  /** Joining a dotless domain and any name, and splitting again, is the identity. */
  lemma {:induction false} SplitJoins(domain: string, name: string)
    requires '.' !in domain
    ensures SplitService(domain + ['.'] + name) == Some((domain, name))
  {
    var service := domain + ['.'] + name;
    if domain == [] {
      assert service[0] == '.' && service[1..] == name;
    } else {
      assert domain == [domain[0]] + domain[1..] && service[0] == domain[0] && domain[0] in domain;
      assert service[1..] == domain[1..] + ['.'] + name;
      SplitJoins(domain[1..], name);
    }
  }

  /** The mined group an automation is validated against. */
  datatype Group = Group(
    isTod: bool, entities: set<string>, trigger: Option<(string, string)>, mean: int)

  datatype Error =
    | DoesNotParse
    | NotInGroup(entity: string)
    | NotInRegistry(entity: string)
    | MalformedService(service: string)
    | ServiceNotAllowed(service: string)
    | WrongDomain(service: string, entity: string)
    | SunDisabled
    | NeedsTimeOrSun
    | TooFarFromMean(seconds: int)
    | NeedsStateTrigger
    | WrongTrigger

  function AllowedEntities(g: Group): set<string> {
    g.entities + if g.trigger.Some? then {g.trigger.value.0} else {}
  }

  /** `sun` is None without coordinates; `today` holds that date's (sunrise, sunset),
      or None where the sun does not rise or set. */
  datatype Sky = Sky(enabled: bool, today: Option<(int, int)>)

  function Anchor(sunTimes: (int, int), event: SunEvent): int {
    if event.Sunrise? then sunTimes.0 else sunTimes.1
  }

  function References(a: Automation): seq<string> {
    (if a.trigger.StateTrigger? then [a.trigger.entity] else [])
      + ConditionEntities(a.conditions) + Targets(a.actions)
  }

  function ConditionEntities(cs: seq<Condition>): seq<string> {
    if cs == [] then [] else (if cs[0].StateCondition? then [cs[0].entity] else []) + ConditionEntities(cs[1..])
  }

  function Targets(actions: seq<Action>): seq<string> {
    if actions == [] then [] else actions[0].targets + Targets(actions[1..])
  }

  // ------------------------------------------------------ what "valid" means

  ghost predicate EntityOk(e: string, g: Group, domains: map<string, string>) {
    e in AllowedEntities(g) && e in domains
  }

  ghost predicate EntitiesOk(es: seq<string>, n: nat, g: Group, domains: map<string, string>)
    requires n <= |es|
  {
    forall k :: 0 <= k < n ==> EntityOk(es[k], g, domains)
  }

  ghost predicate ActionsOk(actions: seq<Action>, n: nat, domains: map<string, string>)
    requires n <= |actions|
  {
    forall i :: 0 <= i < n ==> ActionOk(actions[i], domains)
  }

  ghost predicate TargetOk(e: string, domain: string, domains: map<string, string>) {
    e in domains ==> domains[e] == domain
  }

  ghost predicate TargetsOk(targets: seq<string>, n: nat, domain: string, domains: map<string, string>)
    requires n <= |targets|
  {
    forall k :: 0 <= k < n ==> TargetOk(targets[k], domain, domains)
  }

  ghost predicate ActionOk(a: Action, domains: map<string, string>) {
    var split := SplitService(a.service);
    && split.Some?
    && split.value.1 in AllowedServices(split.value.0)
    && TargetsOk(a.targets, |a.targets|, split.value.0, domains)
  }

  predicate TriggerOk(t: Trigger, g: Group, sky: Sky, grace: int) {
    if g.isTod then
      match t
      case TimeTrigger(at) => Dist(at, g.mean) <= grace
      case SunTrigger(event, offset) =>
        sky.enabled && (sky.today.Some? ==> Dist(Anchor(sky.today.value, event) + offset, g.mean) <= grace)
      case StateTrigger(_, _) => false
    else
      t.StateTrigger? && g.trigger == Some((t.entity, t.to))
  }

  /** References stay inside the group and the registry, services are allowed and fit
      their targets, and the trigger agrees with what was mined. */
  ghost predicate Valid(a: Automation, g: Group, domains: map<string, string>, sky: Sky, grace: int) {
    && EntitiesOk(References(a), |References(a)|, g, domains)
    && ActionsOk(a.actions, |a.actions|, domains)
    && TriggerOk(a.trigger, g, sky, grace)
  }

  // -------------------------------------------------------------- the method

  method CheckEntities(referenced: seq<string>, g: Group, domains: map<string, string>) returns (errors: seq<Error>)
    ensures errors == [] <==> EntitiesOk(referenced, |referenced|, g, domains)
  {
    errors := [];
    for i := 0 to |referenced|
      invariant errors == [] <==> EntitiesOk(referenced, i, g, domains)
    {
      var e := referenced[i];
      if e !in AllowedEntities(g) {
        errors := errors + [NotInGroup(e)];
      } else if e !in domains {
        errors := errors + [NotInRegistry(e)];
      }
    }
  }

  method CheckTargets(service: string, targets: seq<string>, domain: string,
                      domains: map<string, string>) returns (errors: seq<Error>)
    ensures errors == [] <==> TargetsOk(targets, |targets|, domain, domains)
  {
    errors := [];
    for i := 0 to |targets|
      invariant errors == [] <==> TargetsOk(targets, i, domain, domains)
    {
      var e := targets[i];
      if e in domains && domains[e] != domain {
        errors := errors + [WrongDomain(service, e)];
      }
    }
  }

  method CheckAction(a: Action, domains: map<string, string>) returns (errors: seq<Error>)
    ensures errors == [] <==> ActionOk(a, domains)
  {
    var split := SplitService(a.service);
    if split.None? {
      return [MalformedService(a.service)];
    }
    var (domain, name) := split.value;
    var more := CheckTargets(a.service, a.targets, domain, domains);
    errors := (if name in AllowedServices(domain) then [] else [ServiceNotAllowed(a.service)]) + more;
  }

  method CheckActions(actions: seq<Action>, domains: map<string, string>) returns (errors: seq<Error>)
    ensures errors == [] <==> ActionsOk(actions, |actions|, domains)
  {
    hide ActionOk;
    errors := [];
    for i := 0 to |actions|
      invariant errors == [] <==> ActionsOk(actions, i, domains)
    {
      var more := CheckAction(actions[i], domains);
      errors := errors + more;
    }
  }

  method CheckTrigger(t: Trigger, g: Group, sky: Sky, grace: int) returns (errors: seq<Error>)
    ensures errors == [] <==> TriggerOk(t, g, sky, grace)
  {
    errors := [];
    if g.isTod {
      var minutes: Option<int> := None;
      match t {
        case TimeTrigger(at) => minutes := Some(at);
        case SunTrigger(event, offset) =>
          if !sky.enabled {
            errors := [SunDisabled];
          } else if sky.today.Some? {
            minutes := Some(Anchor(sky.today.value, event) + offset);
          }
        case StateTrigger(_, _) => errors := [NeedsTimeOrSun];
      }
      if minutes.Some? && Dist(minutes.value, g.mean) > grace {
        errors := errors + [TooFarFromMean(minutes.value)];
      }
    } else {
      if !t.StateTrigger? {
        errors := [NeedsStateTrigger];
      } else if g.trigger != Some((t.entity, t.to)) {
        errors := [WrongTrigger];
      }
    }
  }

  /** validate_proposal: no errors and the automation back exactly when it is valid. */
  method ValidateProposal(parse: Option<Automation>, g: Group, domains: map<string, string>, sky: Sky, grace: int)
    returns (parsed: Option<Automation>, errors: seq<Error>)
    ensures errors == [] <==> parse.Some? && Valid(parse.value, g, domains, sky, grace)
    ensures parsed == if errors == [] then parse else None
  {
    if parse.None? {
      return None, [DoesNotParse];
    }
    var a := parse.value;
    var badEntities := CheckEntities(References(a), g, domains);
    var badActions := CheckActions(a.actions, domains);
    var badTrigger := CheckTrigger(a.trigger, g, sky, grace);
    errors := badEntities + badActions + badTrigger;
    parsed := if errors == [] then Some(a) else None;
  }

  // ---------------------------------------------------- consequences of validity

  lemma {:induction false} TargetsAreReferenced(actions: seq<Action>, i: nat, e: string)
    requires i < |actions| && e in actions[i].targets
    ensures e in Targets(actions)
  {
    if i > 0 {
      TargetsAreReferenced(actions[1..], i - 1, e);
    }
  }

  /** Every action of a valid automation names a service with a known result state and
      drives only registered entities of the group, in the service's own domain. */
  lemma ValidActionsAreSafe(a: Automation, g: Group, domains: map<string, string>, sky: Sky, grace: int, i: nat)
    requires Valid(a, g, domains, sky, grace) && i < |a.actions|
    ensures ActionOk(a.actions[i], domains) && SplitService(a.actions[i].service).Some?
    ensures var (domain, name) := SplitService(a.actions[i].service).value;
            && name in AllowedServices(domain) && name in SERVICE_STATE
            && forall e :: e in a.actions[i].targets ==> e in AllowedEntities(g) && e in domains && domains[e] == domain
  {
    var (domain, name) := SplitService(a.actions[i].service).value;
    AllowedHaveState(domain, name);
    forall e | e in a.actions[i].targets ensures e in AllowedEntities(g) && e in domains && domains[e] == domain {
      TargetsAreReferenced(a.actions, i, e);
      assert e in References(a);
      var r :| 0 <= r < |References(a)| && References(a)[r] == e;
      assert EntityOk(References(a)[r], g, domains);
      var k :| 0 <= k < |a.actions[i].targets| && a.actions[i].targets[k] == e;
      assert ActionOk(a.actions[i], domains) && TargetOk(a.actions[i].targets[k], domain, domains);
    }
  }

  lemma AllowedHaveState(domain: string, name: string)
    requires name in AllowedServices(domain)
    ensures name in SERVICE_STATE
  {
  }

  // --------------------------------------------------- the checks, spelled out

  /** The calls a model may author. */
  const CALLS: set<(string, string)> := {
    ("light", "turn_on"), ("light", "turn_off"), ("switch", "turn_on"), ("switch", "turn_off"),
    ("fan", "turn_on"), ("fan", "turn_off"), ("media_player", "turn_on"), ("media_player", "turn_off"),
    ("lock", "lock"), ("lock", "unlock"), ("cover", "open_cover"), ("cover", "close_cover")}

  lemma AllowedAreCalls(domain: string, name: string)
    ensures name in AllowedServices(domain) <==> (domain, name) in CALLS
  {
  }

  /** The entity is a member of the group or its trigger, and registered. */
  predicate Known(e: string, g: Group, domains: map<string, string>) {
    (e in g.entities || (g.trigger.Some? && e == g.trigger.value.0)) && e in domains
  }

  /** One of the calls, on entities of its domain. */
  ghost predicate CallsWell(a: Action, domains: map<string, string>) {
    exists domain: string, name: string ::
      && (domain, name) in CALLS && a.service == domain + ['.'] + name
      && forall e :: e in a.targets && e in domains ==> domains[e] == domain
  }

  /** For an event pair the mined entity and state; for a time of day a clock time, or a
      time by today's sun, within the grace of the mined mean. */
  ghost predicate TriggerIsMined(t: Trigger, g: Group, sky: Sky, grace: int) {
    match t
    case StateTrigger(entity, to) => !g.isTod && g.trigger == Some((entity, to))
    case TimeTrigger(at) => g.isTod && Dist(at, g.mean) <= grace
    case SunTrigger(event, offset) =>
      g.isTod && sky.enabled
      && (sky.today.Some? ==>
            Dist((if event == Sunrise then sky.today.value.0 else sky.today.value.1) + offset, g.mean) <= grace)
  }

  lemma CallsWellIff(a: Action, domains: map<string, string>)
    ensures ActionOk(a, domains) <==> CallsWell(a, domains)
  {
    hide AllowedServices;
    if ActionOk(a, domains) {
      var (domain, name) := SplitService(a.service).value;
      AllowedAreCalls(domain, name);
      forall e | e in a.targets && e in domains ensures domains[e] == domain {
        var k :| 0 <= k < |a.targets| && a.targets[k] == e;
        assert TargetOk(a.targets[k], domain, domains);
      }
    }
    if domain: string, name: string :|
        && (domain, name) in CALLS && a.service == domain + ['.'] + name
        && forall e :: e in a.targets && e in domains ==> domains[e] == domain {
      AllowedAreCalls(domain, name);
      DomainsAreDotless(domain, name);
      SplitJoins(domain, name);
    }
  }

  lemma DomainsAreDotless(domain: string, name: string)
    requires (domain, name) in CALLS
    ensures '.' !in domain
  {
  }

  /** An automation passes exactly when it mentions known entities only, makes proper calls
      only, and triggers on what was mined. */
  lemma ValidIff(a: Automation, g: Group, domains: map<string, string>, sky: Sky, grace: int)
    ensures Valid(a, g, domains, sky, grace)
       <==> && (forall e :: e in References(a) ==> Known(e, g, domains))
            && (forall i :: 0 <= i < |a.actions| ==> CallsWell(a.actions[i], domains))
            && TriggerIsMined(a.trigger, g, sky, grace)
  {
    hide CallsWell, ActionOk, References;
    forall i | 0 <= i < |a.actions| ensures ActionOk(a.actions[i], domains) <==> CallsWell(a.actions[i], domains) {
      CallsWellIff(a.actions[i], domains);
    }
    forall e | e in References(a) ensures EntityOk(e, g, domains) <==> Known(e, g, domains) {
    }
    if EntitiesOk(References(a), |References(a)|, g, domains) {
      forall e | e in References(a) ensures Known(e, g, domains) {
        var k :| 0 <= k < |References(a)| && References(a)[k] == e;
        assert EntityOk(References(a)[k], g, domains);
      }
    }
  }

  /** The entities an automation mentions: trigger, conditions and targets. */
  lemma {:induction false} ReferencesAre(a: Automation, e: string)
    ensures e in References(a)
       <==> || (a.trigger.StateTrigger? && a.trigger.entity == e)
            || (exists c :: c in a.conditions && c.StateCondition? && c.entity == e)
            || (exists b :: b in a.actions && e in b.targets)
  {
    ConditionEntitiesAre(a.conditions, e);
    TargetsAre(a.actions, e);
  }

  lemma {:induction false} ConditionEntitiesAre(cs: seq<Condition>, e: string)
    ensures e in ConditionEntities(cs) <==> exists c :: c in cs && c.StateCondition? && c.entity == e
  {
    if cs != [] {
      assert cs == [cs[0]] + cs[1..];
      ConditionEntitiesAre(cs[1..], e);
    }
  }

  lemma {:induction false} TargetsAre(actions: seq<Action>, e: string)
    ensures e in Targets(actions) <==> exists b :: b in actions && e in b.targets
  {
    if actions != [] {
      assert actions == [actions[0]] + actions[1..];
      TargetsAre(actions[1..], e);
    }
  }
}
