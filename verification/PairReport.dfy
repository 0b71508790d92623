/** What an emitted event pair says (src/pae/miner/pairs.py), in terms of the transitions
    alone: which pairs are emitted, and their numbers. */
module PairReport {
  import opened Prelude
  import opened Sorting
  import opened PairMiner

  // --------------------------------------------------------- what is counted

  predicate IsAt(e: Event, k: StateKey) { e.entity == k.entity && e.newState == k.state }

  /** Switched to that state by hand, in a domain automations can act on. */
  predicate ByHand(e: Event, k: StateKey) { e.triggeredBy == "manual" && e.domain in ACTIONABLE_DOMAINS && IsAt(e, k) }

  predicate InTime(tr: seq<Event>, cfg: Config, j: nat, i: nat)
    requires j < |tr| && i < |tr|
  {
    cfg.minGap <= tr[i].time - tr[j].time && tr[i].time - tr[j].time <= cfg.window
  }

  /** Occurrence j of key.a is the last one in time before the change i to key.b by hand. */
  ghost predicate Leads(tr: seq<Event>, cfg: Config, key: PairKey, j: nat, i: nat) {
    && j < i < |tr| && key.a.entity != key.b.entity
    && IsAt(tr[j], key.a) && ByHand(tr[i], key.b) && InTime(tr, cfg, j, i)
    && forall m: nat :: j < m < i && IsAt(tr[m], key.a) ==> !InTime(tr, cfg, m, i)
  }

  ghost function Leaders(tr: seq<Event>, cfg: Config, key: PairKey): set<nat> {
    set j: nat, i: nat | j < |tr| && i < |tr| && Leads(tr, cfg, key, j, i) :: j
  }

  ghost predicate Led(tr: seq<Event>, cfg: Config, key: PairKey, i: nat) {
    exists j: nat :: Leads(tr, cfg, key, j, i)
  }

  ghost function LedDays(tr: seq<Event>, dateOf: int -> int, cfg: Config, key: PairKey): set<int> {
    set i: nat | i < |tr| && Led(tr, cfg, key, i) :: dateOf(tr[i].time)
  }

  ghost function Occurrences(tr: seq<Event>, k: StateKey): nat { |set i: nat | i < |tr| && IsAt(tr[i], k)| }

  ghost function HandChanges(tr: seq<Event>, k: StateKey): nat { |set i: nat | i < |tr| && ByHand(tr[i], k)| }

  /** How many changes by hand to expect in one window. */
  ghost function Chance(tr: seq<Event>, cfg: Config, k: StateKey): real
    requires cfg.spanMinutes > 0.0
  {
    var windowMinutes := cfg.window as real / 60000000.0;
    HandChanges(tr, k) as real * windowMinutes / cfg.spanMinutes
  }

  /** Led often enough, in enough of all occurrences, and enough above chance. */
  ghost predicate Worthy(tr: seq<Event>, cfg: Config, key: PairKey)
    requires cfg.spanMinutes > 0.0
  {
    var n, chance := |Leaders(tr, cfg, key)|, Chance(tr, cfg, key.b);
    var a := Occurrences(tr, key.a) as real;
    && n > 0 && n >= cfg.minPairs && n as real >= cfg.minConfidence * a
    && if chance > 0.0 then n as real >= cfg.minLift * chance * a else cfg.minLift <= 0.0
  }

  /** c reports these numbers of its key. */
  ghost predicate Reports(c: Candidate, tr: seq<Event>, dateOf: int -> int, cfg: Config)
    requires cfg.spanMinutes > 0.0
  {
    var chance := Chance(tr, cfg, c.key.b);
    && c.occurrences == |Leaders(tr, cfg, c.key)| && c.nA == Occurrences(tr, c.key.a)
    && c.nB == HandChanges(tr, c.key.b) && c.daysObserved == cfg.daysObservedTotal
    && c.confidence * c.nA as real == c.occurrences as real
    && (if chance > 0.0 then c.lift * chance == c.confidence else c.lift == 0.0)
    && c.support * cfg.daysObservedTotal as real == |LedDays(tr, dateOf, cfg, c.key)| as real
    && SeenBetween(c, tr, cfg) && Samples(c, tr, cfg)
  }

  /** The latest changes it led to, at most ten, in order. */
  ghost predicate Samples(c: Candidate, tr: seq<Event>, cfg: Config) {
    && |c.sampleTimes| == (var n := |LedTo(tr, cfg, c.key)|; if n < 10 then n else 10) > 0
    && (forall k, l :: 0 <= k < l < |c.sampleTimes| ==> c.sampleTimes[k] <= c.sampleTimes[l])
    && (forall t :: t in c.sampleTimes ==> exists i: nat :: i < |tr| && Led(tr, cfg, c.key, i) && tr[i].time == t)
    && (forall i: nat :: i < |tr| && Led(tr, cfg, c.key, i) ==>
          tr[i].time in c.sampleTimes || tr[i].time <= c.sampleTimes[0])
  }

  ghost function LedTo(tr: seq<Event>, cfg: Config, key: PairKey): set<nat> {
    set i: nat | i < |tr| && Led(tr, cfg, key, i)
  }

  /** The first and the last change it led to. */
  ghost predicate SeenBetween(c: Candidate, tr: seq<Event>, cfg: Config) {
    && (forall i: nat :: Led(tr, cfg, c.key, i) ==> i < |tr| && c.firstSeen <= tr[i].time <= c.lastSeen)
    && (exists i: nat :: i < |tr| && Led(tr, cfg, c.key, i) && tr[i].time == c.firstSeen)
    && (exists i: nat :: i < |tr| && Led(tr, cfg, c.key, i) && tr[i].time == c.lastSeen)
  }

  // ------------------------------------------------ the scan's terms are these

  lemma HitIsLeads(tr: seq<Event>, cfg: Config, key: PairKey, i: nat, j: nat)
    requires i < |tr|
    ensures Hit(tr, cfg, key, i, j) <==> Leads(tr, cfg, key, j, i)
  {
    if Hit(tr, cfg, key, i, j) {
      forall m: nat | j < m < i && IsAt(tr[m], key.a) ensures !InTime(tr, cfg, m, i) {
        assert KeyOf(tr[m]) == KeyOf(tr[j]);
      }
    }
    if Leads(tr, cfg, key, j, i) {
      LeadsIsNearest(tr, cfg, key, i, j);
    }
  }

  lemma LeadsIsNearest(tr: seq<Event>, cfg: Config, key: PairKey, i: nat, j: nat)
    requires i < |tr| && Leads(tr, cfg, key, j, i)
    ensures Nearest(tr, cfg, i, j)
  {
    forall k: nat ensures j < k < i && KeyOf(tr[k]) == KeyOf(tr[j]) ==> !Candidates(tr, cfg, i, k) {
      assert j < k < i && IsAt(tr[k], key.a) ==> !InTime(tr, cfg, k, i);
    }
  }

  lemma LeadersAreAntecedents(tr: seq<Event>, cfg: Config, key: PairKey)
    ensures Leaders(tr, cfg, key) == Antecedents(tr, cfg, key)
  {
    hide Hit, Leads;
    forall j: nat, i: nat | j < |tr| && i < |tr| ensures Hit(tr, cfg, key, i, j) <==> Leads(tr, cfg, key, j, i) {
      HitIsLeads(tr, cfg, key, i, j);
    }
  }

  lemma FoundIsLed(tr: seq<Event>, cfg: Config, key: PairKey, i: nat)
    requires i < |tr|
    ensures FoundAbove(tr, cfg, key, i, -1) <==> Led(tr, cfg, key, i)
  {
    hide Hit, Leads;
    forall j: nat ensures Hit(tr, cfg, key, i, j) <==> Leads(tr, cfg, key, j, i) {
      HitIsLeads(tr, cfg, key, i, j);
    }
  }

  lemma CountsAre(tr: seq<Event>, k: StateKey)
    ensures NA(tr, k) == Occurrences(tr, k) && NB(tr, k) == HandChanges(tr, k)
  {
    var isA, isB := (e: Event) => KeyOf(e) == k, (e: Event) => Consequent(e) && KeyOf(e) == k;
    FilterSize(isA, tr);
    FilterSize(isB, tr);
    assert Picked(isA, tr) == set i: nat | i < |tr| && IsAt(tr[i], k);
    assert Picked(isB, tr) == set i: nat | i < |tr| && ByHand(tr[i], k);
  }

  lemma {:induction false} TimesOfFollowers(tr: seq<Event>, dateOf: int -> int, cfg: Config, key: PairKey,
                                            fs: seq<nat>, t: int)
    requires AreFollowers(tr, cfg, key, fs)
    ensures t in RecordOf(tr, dateOf, cfg, key, fs).times <==> exists i :: i in fs && tr[i].time == t
  {
    if fs != [] {
      var l := |fs| - 1;
      assert fs == fs[..l] + [fs[l]];
      TimesOfFollowers(tr, dateOf, cfg, key, fs[..l], t);
    }
  }

  /** The record's times and days are those of the changes led to. */
  lemma RecordIsLed(tr: seq<Event>, dateOf: int -> int, cfg: Config, key: PairKey)
    ensures var r := PairRecord(tr, dateOf, cfg, key);
            && r.days == LedDays(tr, dateOf, cfg, key)
            && forall t :: t in r.times <==> exists i: nat :: i < |tr| && Led(tr, cfg, key, i) && tr[i].time == t
  {
    hide FoundAbove, Led, RecordOf;
    var fs := Followers(tr, cfg, key, |tr|);
    var r := PairRecord(tr, dateOf, cfg, key);
    FollowersAreFollowers(tr, cfg, key, |tr|);
    forall i: nat | i < |tr| ensures FoundAbove(tr, cfg, key, i, -1) <==> Led(tr, cfg, key, i) {
      FoundIsLed(tr, cfg, key, i);
    }
    forall t ensures t in r.times <==> exists i: nat :: i < |tr| && Led(tr, cfg, key, i) && tr[i].time == t {
      TimesOfFollowers(tr, dateOf, cfg, key, fs, t);
    }
    RecordDays(tr, dateOf, cfg, key, fs);
    DaysOfTimes(tr, dateOf, cfg, key, r.times);
  }

  lemma DaysOfTimes(tr: seq<Event>, dateOf: int -> int, cfg: Config, key: PairKey, times: seq<int>)
    requires forall t :: t in times <==> exists i: nat :: i < |tr| && Led(tr, cfg, key, i) && tr[i].time == t
    ensures (set t | t in times :: dateOf(t)) == LedDays(tr, dateOf, cfg, key)
  {
    hide Led;
    forall i: nat | i < |tr| && Led(tr, cfg, key, i) ensures tr[i].time in times {
    }
  }

  lemma HasPairIff(tr: seq<Event>, dateOf: int -> int, cfg: Config, key: PairKey)
    ensures HasPair(tr, cfg, key) <==> Leaders(tr, cfg, key) != {}
    ensures HasPair(tr, cfg, key) ==> Occurrences(tr, key.a) > 0
    ensures |PairRecord(tr, dateOf, cfg, key).aIdx| == |Leaders(tr, cfg, key)|
  {
    RecordIsAntecedents(tr, dateOf, cfg, key);
    LeadersAreAntecedents(tr, cfg, key);
    PairBounds(tr, dateOf, cfg, key);
    CountsAre(tr, key.a);
    FollowersAreFollowers(tr, cfg, key, |tr|);
    if j :| j in Antecedents(tr, cfg, key) {
      var i: nat :| i < |tr| && Hit(tr, cfg, key, i, j);
      assert FoundAbove(tr, cfg, key, i, -1);
      assert i in Followers(tr, cfg, key, |tr|);
    }
  }

  // ------------------------------------------------------------- the gates

  /** x / y >= z, without dividing. */
  lemma AtLeast(x: real, y: real, z: real)
    requires y > 0.0
    ensures x / y >= z <==> x >= z * y
  {
    var q := x / y;
    assert q * y == x;
    Scale(q, z, y);
  }

  lemma Scale(q: real, z: real, y: real)
    requires y > 0.0
    ensures q >= z <==> q * y >= z * y
  {
    assert (q - z) * y == q * y - z * y;
    PositiveFactor(q - z, y);
  }

  lemma PositiveFactor(d: real, y: real)
    requires y > 0.0
    ensures d >= 0.0 <==> d * y >= 0.0
  {
  }

  lemma GatesAre(n: nat, a: nat, chance: real, cfg: Config)
    requires a > 0
    ensures var confidence := n as real / a as real;
            && (confidence >= cfg.minConfidence <==> n as real >= cfg.minConfidence * a as real)
            && (chance > 0.0 ==>
                  (confidence / chance >= cfg.minLift <==> n as real >= cfg.minLift * chance * a as real))
  {
    AtLeast(n as real, a as real, cfg.minConfidence);
    if chance > 0.0 {
      AtLeast(n as real / a as real, chance, cfg.minLift);
      AtLeast(n as real, a as real, cfg.minLift * chance);
    }
  }

  /** The record and the counters the score is made from. */
  lemma Inputs(tr: seq<Event>, dateOf: int -> int, cfg: Config, key: PairKey)
    requires Comparable(cfg) && HasPair(tr, cfg, key)
    ensures var r := PairRecord(tr, dateOf, cfg, key);
            && r.times != [] && |r.aIdx| == |Leaders(tr, cfg, key)| > 0 && r.days == LedDays(tr, dateOf, cfg, key)
            && NA(tr, key.a) == Occurrences(tr, key.a) > 0 && NB(tr, key.b) == HandChanges(tr, key.b)
            && PB(NB(tr, key.b), cfg) == Chance(tr, cfg, key.b)
            && Mined(tr, dateOf, cfg, key) == Score(tr, cfg, key, r)
  {
    hide Leaders, PairRecord, HasPair, NA, NB, Occurrences, HandChanges, LedDays, Score;
    HasPairIff(tr, dateOf, cfg, key);
    PairBounds(tr, dateOf, cfg, key);
    CountsAre(tr, key.a);
    CountsAre(tr, key.b);
    RecordIsLed(tr, dateOf, cfg, key);
  }

  lemma ScoreIff(tr: seq<Event>, dateOf: int -> int, cfg: Config, key: PairKey)
    requires Comparable(cfg) && HasPair(tr, cfg, key)
    ensures Mined(tr, dateOf, cfg, key).Some? <==> Worthy(tr, cfg, key)
  {
    hide Leaders, PairRecord, HasPair, NA, NB, Occurrences, HandChanges, LedDays, Sort, Mined, Chance, PB;
    Inputs(tr, dateOf, cfg, key);
    GatesAre(|Leaders(tr, cfg, key)|, Occurrences(tr, key.a), Chance(tr, cfg, key.b), cfg);
  }

  lemma ScoreReports(tr: seq<Event>, dateOf: int -> int, cfg: Config, key: PairKey)
    requires Comparable(cfg) && HasPair(tr, cfg, key) && Mined(tr, dateOf, cfg, key).Some?
    ensures var c := Mined(tr, dateOf, cfg, key).value; c.key == key && Reports(c, tr, dateOf, cfg)
  {
    hide Leaders, PairRecord, HasPair, NA, NB, Occurrences, HandChanges, LedDays, Sort, Mined, Chance, PB, SeenBetween,
        Samples;
    Inputs(tr, dateOf, cfg, key);
    var r, c, chance := PairRecord(tr, dateOf, cfg, key), Mined(tr, dateOf, cfg, key).value, Chance(tr, cfg, key.b);
    Quotient(|r.aIdx| as real, NA(tr, key.a) as real);
    Quotient(|r.days| as real, cfg.daysObservedTotal as real);
    if chance > 0.0 {
      Quotient(c.confidence, chance);
    }
    EndsOf(r.times);
    SeenAt(c, tr, dateOf, cfg);
    TimesAreMany(tr, dateOf, cfg, key);
    SampledAt(c, tr, dateOf, cfg);
  }

  lemma {:induction false} FollowersMany(tr: seq<Event>, cfg: Config, key: PairKey, n: nat)
    requires n <= |tr|
    ensures |Followers(tr, cfg, key, n)| == |set i: nat | i < n && FoundAbove(tr, cfg, key, i, -1)|
  {
    hide FoundAbove;
    if n > 0 {
      FollowersMany(tr, cfg, key, n - 1);
      var before := set i: nat | i < n - 1 && FoundAbove(tr, cfg, key, i, -1);
      var after := set i: nat | i < n && FoundAbove(tr, cfg, key, i, -1);
      assert after == if FoundAbove(tr, cfg, key, n - 1, -1) then before + {n - 1} else before;
    }
  }

  lemma TimesAreMany(tr: seq<Event>, dateOf: int -> int, cfg: Config, key: PairKey)
    ensures |PairRecord(tr, dateOf, cfg, key).times| == |LedTo(tr, cfg, key)|
  {
    hide FoundAbove, Led, RecordOf;
    FollowersAreFollowers(tr, cfg, key, |tr|);
    FollowersMany(tr, cfg, key, |tr|);
    RecordSizes(tr, dateOf, cfg, key, Followers(tr, cfg, key, |tr|));
    forall i: nat | i < |tr| ensures FoundAbove(tr, cfg, key, i, -1) <==> Led(tr, cfg, key, i) {
      FoundIsLed(tr, cfg, key, i);
    }
    assert LedTo(tr, cfg, key) == set i: nat | i < |tr| && FoundAbove(tr, cfg, key, i, -1);
  }

  lemma LastTen(ts: seq<int>)
    requires ts != []
    ensures var sorted, last := Sort(ts, Ascending()), Last(10, Sort(ts, Ascending()));
            && |sorted| == |ts| && |last| == (if |ts| < 10 then |ts| else 10)
            && (forall k, l :: 0 <= k < l < |last| ==> last[k] <= last[l])
            && (forall t :: t in last ==> t in ts) && forall t :: t in ts ==> t in last || t <= last[0]
  {
    hide Sort;
    var sorted := Sort(ts, Ascending());
    var last := Last(10, sorted);
    SortIsPermutation(ts, Ascending());
    SortIsSorted(ts, Ascending());
    assert |sorted| == |ts|;
    forall t ensures t in ts <==> t in sorted {
      assert t in multiset(sorted) <==> t in multiset(ts);
    }
    forall k, l | 0 <= k < l < |sorted| ensures sorted[k] <= sorted[l] {
      assert Ascending()(sorted[k], sorted[l]);
    }
    var skipped := |sorted| - |last|;
    assert forall k :: 0 <= k < |last| ==> last[k] == sorted[skipped + k];
    forall t | t in ts ensures t in last || t <= last[0] {
      var i :| 0 <= i < |sorted| && sorted[i] == t;
      assert i < skipped || last[i - skipped] == t;
    }
  }

  lemma SampledAt(c: Candidate, tr: seq<Event>, dateOf: int -> int, cfg: Config)
    requires var ts := PairRecord(tr, dateOf, cfg, c.key).times;
             ts != [] && c.sampleTimes == Last(10, Sort(ts, Ascending())) && |ts| == |LedTo(tr, cfg, c.key)|
    ensures Samples(c, tr, cfg)
  {
    hide PairRecord, Leads, Led, Sort, Last;
    var ts := PairRecord(tr, dateOf, cfg, c.key).times;
    RecordIsLed(tr, dateOf, cfg, c.key);
    LastTen(ts);
  }

  lemma EndsOf(ts: seq<int>)
    requires ts != []
    ensures var s := Sort(ts, Ascending());
            |s| == |ts| && s[0] in ts && s[|s| - 1] in ts && forall t :: t in ts ==> s[0] <= t <= s[|s| - 1]
  {
    hide Sort;
    var s := Sort(ts, Ascending());
    SortIsPermutation(ts, Ascending());
    SortIsSorted(ts, Ascending());
    forall t ensures t in ts <==> t in s {
      assert t in multiset(s) <==> t in multiset(ts);
    }
    forall t | t in ts ensures s[0] <= t <= s[|s| - 1] {
      var i :| 0 <= i < |s| && s[i] == t;
      assert i == 0 || Ascending()(s[0], s[i]);
      assert i == |s| - 1 || Ascending()(s[i], s[|s| - 1]);
    }
    assert s[0] in s && s[|s| - 1] in s;
  }

  lemma SeenAt(c: Candidate, tr: seq<Event>, dateOf: int -> int, cfg: Config)
    requires var ts := PairRecord(tr, dateOf, cfg, c.key).times;
             && ts != [] && c.firstSeen in ts && c.lastSeen in ts
             && forall t :: t in ts ==> c.firstSeen <= t <= c.lastSeen
    ensures SeenBetween(c, tr, cfg)
  {
    hide PairRecord, Leads;
    RecordIsLed(tr, dateOf, cfg, c.key);
    forall i: nat | Led(tr, cfg, c.key, i) ensures i < |tr| && c.firstSeen <= tr[i].time <= c.lastSeen {
      LedInRange(tr, cfg, c.key, i);
      assert tr[i].time in PairRecord(tr, dateOf, cfg, c.key).times;
    }
  }

  lemma LedInRange(tr: seq<Event>, cfg: Config, key: PairKey, i: nat)
    requires Led(tr, cfg, key, i)
    ensures i < |tr|
  {
  }

  /** What the miner returns: a pattern for exactly the worthy keys, one each, with the
      numbers of its key. */
  lemma EmittedIff(tr: seq<Event>, dateOf: int -> int, cfg: Config, out: seq<Candidate>, key: PairKey)
    requires Comparable(cfg) && Emits(tr, dateOf, cfg, out)
    ensures (exists c :: c in out && c.key == key) <==> Worthy(tr, cfg, key)
    ensures forall c :: c in out && c.key == key ==> Reports(c, tr, dateOf, cfg)
    ensures forall i, j :: 0 <= i < j < |out| ==> out[i].key != out[j].key
  {
    hide HasPair, Leaders, Score, Reports;
    HasPairIff(tr, dateOf, cfg, key);
    if HasPair(tr, cfg, key) {
      ScoreIff(tr, dateOf, cfg, key);
      if Mined(tr, dateOf, cfg, key).Some? {
        ScoreReports(tr, dateOf, cfg, key);
      }
    }
  }

  /** The transitions are the events that change to a proper state, in time order. */
  lemma TransitionsAre(events: seq<Event>, e: Event)
    ensures InTimeOrder(Transitions(events))
    ensures multiset(Transitions(events))[e]
         == if e.newState.Some? && e.newState != Some("") && e.newState != e.oldState then multiset(events)[e] else 0
  {
    TransitionsOrdered(events);
    FilterCounts(IsTransition, Sort(events, ByTime()), e);
    SortIsPermutation(events, ByTime());
  }
}
