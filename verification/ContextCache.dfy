/** `ContextCache` and `attribute` (src/pae/ingest/attribution.py): pruning
    expired entries cannot be observed. */
module ContextCache {
  import opened Prelude

  datatype Source = Manual | Automation | Pae

  datatype Added = Added(id: string, source: Source, time: int)

  type Entries = map<string, (int, Source)>

  const PRUNE_AT := 10000

  function Pruned(entries: Entries, now: int): Entries {
    if |entries| < PRUNE_AT then entries
    else map id | id in entries && entries[id].0 >= now :: entries[id]
  }

  function AfterAdd(entries: Entries, ttl: int, a: Added): Entries {
    Pruned(entries, a.time)[a.id := (a.time + ttl, a.source)]
  }

  function Lookup(entries: Entries, id: Option<string>, now: int): Option<Source> {
    if id.None? || id.value !in entries || entries[id.value].0 < now then None
    else Some(entries[id.value].1)
  }

  /** Classification from the two lookups; a user id never matters. */
  function Classify(own: Option<Source>, parents: Option<Source>, parentId: Option<string>): Source {
    if own.Some? then own.value
    else if parents.Some? then parents.value
    else if parentId.Some? then Automation
    else Manual
  }

  // ------------------------------------------- the reference: an unpruned log

  function LastAdd(log: seq<Added>, id: string): Option<Added> {
    if log == [] then None
    else if log[|log| - 1].id == id then Some(log[|log| - 1])
    else LastAdd(log[..|log| - 1], id)
  }

  /** The last source announced for id, unless its time to live has run out. */
  function LogLookup(log: seq<Added>, ttl: int, id: Option<string>, now: int): Option<Source> {
    if id.None? then None
    else match LastAdd(log, id.value)
         case None => None
         case Some(a) => if a.time + ttl >= now then Some(a.source) else None
  }

  /** Entry k is the last announcement for id. */
  ghost predicate LastFor(log: seq<Added>, id: string, k: nat) {
    k < |log| && log[k].id == id && forall l :: k < l < |log| ==> log[l].id != id
  }

  lemma {:induction false} LastAddIs(log: seq<Added>, id: string)
    ensures match LastAdd(log, id)
            case None => forall k: nat :: !LastFor(log, id, k)
            case Some(a) => exists k: nat :: LastFor(log, id, k) && log[k] == a
  {
    if log != [] {
      var l := |log| - 1;
      LastAddIs(log[..l], id);
      if log[l].id == id {
        assert LastFor(log, id, l);
      } else {
        forall k: nat ensures LastFor(log, id, k) <==> LastFor(log[..l], id, k) {
        }
      }
    }
  }

  /** A lookup answers the last announcement for its id, up to and including the second it
      expires, and nothing else. */
  lemma LookupSays(log: seq<Added>, ttl: int, id: Option<string>, now: int)
    ensures var source := LogLookup(log, ttl, id, now);
            && (source.Some? ==>
                  id.Some?
                  && exists k: nat :: LastFor(log, id.value, k) && source.value == log[k].source
                                      && now <= log[k].time + ttl)
            && (source.None? && id.Some? ==>
                  forall k: nat :: LastFor(log, id.value, k) ==> log[k].time + ttl < now)
  {
    if id.Some? {
      LastAddIs(log, id.value);
    }
  }

  /** What the dictionary remembers of the log: everything that has not expired. */
  ghost predicate Remembers(entries: Entries, log: seq<Added>, ttl: int, clock: int) {
    forall id: string :: AgreesOn(entries, log, ttl, clock, id)
  }

  ghost predicate AgreesOn(entries: Entries, log: seq<Added>, ttl: int, clock: int, id: string) {
    match LastAdd(log, id)
    case None => id !in entries
    case Some(a) => if id in entries then entries[id] == (a.time + ttl, a.source) else a.time + ttl < clock
  }

  lemma AddRemembers(entries: Entries, log: seq<Added>, ttl: int, clock: int, a: Added)
    requires Remembers(entries, log, ttl, clock) && clock <= a.time
    ensures Remembers(AfterAdd(entries, ttl, a), log + [a], ttl, a.time)
  {
    forall id: string ensures AgreesOn(AfterAdd(entries, ttl, a), log + [a], ttl, a.time, id) {
      assert (log + [a])[..|log|] == log;
      assert AgreesOn(entries, log, ttl, clock, id);
    }
  }

  lemma LookupAgrees(entries: Entries, log: seq<Added>, ttl: int, clock: int, id: Option<string>, now: int)
    requires Remembers(entries, log, ttl, clock) && clock <= now
    ensures Lookup(entries, id, now) == LogLookup(log, ttl, id, now)
  {
    if id.Some? {
      assert AgreesOn(entries, log, ttl, clock, id.value);
    }
  }

  // ------------------------------------------------------------- the class

  class Cache {
    const ttl: int
    var entries: Entries
    ghost var log: seq<Added>
    ghost var clock: int

    ghost predicate Valid()
      reads this
    {
      Remembers(entries, log, ttl, clock)
    }

    constructor (ttl: int, ghost start: int)
      ensures Valid() && this.ttl == ttl && log == [] && clock == start && entries == map[]
    {
      this.ttl := ttl;
      entries := map[];
      log := [];
      clock := start;
    }

    method Add(id: string, source: Source, now: int)
      requires Valid() && clock <= now
      modifies this
      ensures Valid() && log == old(log) + [Added(id, source, now)] && clock == now
      ensures entries == AfterAdd(old(entries), ttl, Added(id, source, now))
    {
      AddRemembers(entries, log, ttl, clock, Added(id, source, now));
      Prune(now);
      entries := entries[id := (now + ttl, source)];
      log := log + [Added(id, source, now)];
      clock := now;
    }

    /** No lookup from now on can tell; from ten thousand entries on, none is left expired. */
    method Prune(now: int)
      modifies this`entries
      ensures forall id, t :: now <= t ==> Lookup(entries, id, t) == Lookup(old(entries), id, t)
      ensures |old(entries)| >= PRUNE_AT ==> forall id :: id in entries ==> entries[id].0 >= now
      ensures entries == Pruned(old(entries), now)
    {
      if |entries| < PRUNE_AT {
        return;
      }
      entries := map id | id in entries && entries[id].0 >= now :: entries[id];
    }

    /** A lookup reads the dictionary but answers for the whole log. */
    method Get(id: Option<string>, now: int) returns (source: Option<Source>)
      requires Valid() && clock <= now
      ensures source == LogLookup(log, ttl, id, now)
    {
      LookupAgrees(entries, log, ttl, clock, id, now);
      if id.None? {
        return None;
      }
      if id.value !in entries || entries[id.value].0 < now {
        return None;
      }
      return Some(entries[id.value].1);
    }

    /** The own context's source, else the parent's, else an automation's for an unknown
        parent, and a human's without one. Each lookup reads the clock itself, so the second
        may be later. */
    method Attribute(contextId: Option<string>, parentId: Option<string>, now: int, later: int) returns (source: Source)
      requires Valid() && clock <= now <= later
      ensures LogLookup(log, ttl, contextId, now).Some? ==> source == LogLookup(log, ttl, contextId, now).value
      ensures LogLookup(log, ttl, contextId, now).None? && LogLookup(log, ttl, parentId, later).Some? ==>
                source == LogLookup(log, ttl, parentId, later).value
      ensures LogLookup(log, ttl, contextId, now).None? && LogLookup(log, ttl, parentId, later).None? ==>
                source == if parentId == None then Manual else Automation
      ensures source == Classify(LogLookup(log, ttl, contextId, now), LogLookup(log, ttl, parentId, later), parentId)
    {
      var found := Get(contextId, now);
      if found.None? {
        found := Get(parentId, later);
      }
      if found.Some? {
        return found.value;
      }
      if parentId.Some? {
        return Automation;
      }
      return Manual;
    }
  }

  // -------------------------------------------------------------- whole runs

  datatype Op =
    | Announce(a: Added)
    | Ask(contextId: Option<string>, parentId: Option<string>, now: int, later: int)

  function StartOf(op: Op): int { if op.Announce? then op.a.time else op.now }

  function EndOf(op: Op): int { if op.Announce? then op.a.time else op.later }

  /** The clock never runs backwards. */
  predicate InOrder(ops: seq<Op>, clock: int) {
    ops == [] || (clock <= StartOf(ops[0]) <= EndOf(ops[0]) && InOrder(ops[1..], EndOf(ops[0])))
  }

  /** Answers of the pruning cache. */
  function Answers(ops: seq<Op>, entries: Entries, ttl: int): seq<Source> {
    if ops == [] then []
    else match ops[0]
      case Announce(a) => Answers(ops[1..], AfterAdd(entries, ttl, a), ttl)
      case Ask(c, p, now, later) =>
        [Classify(Lookup(entries, c, now), Lookup(entries, p, later), p)] + Answers(ops[1..], entries, ttl)
  }

  /** Answers read off a log that forgets nothing. */
  function LogAnswers(ops: seq<Op>, log: seq<Added>, ttl: int): seq<Source> {
    if ops == [] then []
    else match ops[0]
      case Announce(a) => LogAnswers(ops[1..], log + [a], ttl)
      case Ask(c, p, now, later) =>
        [Classify(LogLookup(log, ttl, c, now), LogLookup(log, ttl, p, later), p)] + LogAnswers(ops[1..], log, ttl)
  }

  lemma {:induction false} PruningIsUnobservable(ops: seq<Op>, entries: Entries, log: seq<Added>, ttl: int, clock: int)
    requires InOrder(ops, clock) && Remembers(entries, log, ttl, clock)
    ensures Answers(ops, entries, ttl) == LogAnswers(ops, log, ttl)
  {
    if ops != [] {
      match ops[0]
      case Announce(a) =>
        AddRemembers(entries, log, ttl, clock, a);
        PruningIsUnobservable(ops[1..], AfterAdd(entries, ttl, a), log + [a], ttl, a.time);
      case Ask(c, p, now, later) =>
        LookupAgrees(entries, log, ttl, clock, c, now);
        LookupAgrees(entries, log, ttl, clock, p, later);
        LaterStillRemembers(entries, log, ttl, clock, later);
        PruningIsUnobservable(ops[1..], entries, log, ttl, later);
    }
  }

  lemma LaterStillRemembers(entries: Entries, log: seq<Added>, ttl: int, clock: int, later: int)
    requires Remembers(entries, log, ttl, clock) && clock <= later
    ensures Remembers(entries, log, ttl, later)
  {
    forall id: string ensures AgreesOn(entries, log, ttl, later, id) {
      assert AgreesOn(entries, log, ttl, clock, id);
    }
  }
}
