/** `mine_event_pairs` (src/pae/miner/pairs.py): the backward window scan with
    early break and nearest-antecedent dedup, proved against the quadratic
    definition, and what follows for the emitted patterns. */
module PairMiner {
  import opened Prelude
  import opened Sorting

  // --------------------------------------------------------------- the data

  /** Times are instants in microseconds. */
  datatype Event = Event(time: int, entity: string, domain: string, oldState: Option<string>, newState: Option<string>,
      triggeredBy: string, userId: Option<string>)

  datatype StateKey = StateKey(entity: string, state: Option<string>)

  /** The pattern key "pair:{a}->{b}". */
  datatype PairKey = PairKey(a: StateKey, b: StateKey)

  datatype Config = Config(
    window: int, minGap: int, minPairs: int, minConfidence: real, minLift: real,
    daysObservedTotal: int, spanMinutes: real)

  datatype Record = Record(aIdx: set<nat>, days: set<int>, times: seq<int>)

  datatype Candidate = Candidate(
    key: PairKey, support: real, confidence: real, lift: real, occurrences: nat, daysObserved: int,
    sampleTimes: seq<int>, nA: nat, nB: nat, firstSeen: int, lastSeen: int)

  const ACTIONABLE_DOMAINS: set<string> :=
    {"light", "switch", "climate", "cover", "lock", "fan", "media_player"}

  predicate IsTransition(e: Event) {
    e.newState.Some? && e.newState.value != "" && e.newState != e.oldState
  }

  /** Manual and in an actionable domain: may be the consequent of a pair. */
  predicate Consequent(e: Event) {
    e.triggeredBy == "manual" && e.domain in ACTIONABLE_DOMAINS
  }

  function KeyOf(e: Event): StateKey {
    StateKey(e.entity, e.newState)
  }

  function ByTime(): (Event, Event) -> bool {
    (x: Event, y: Event) => x.time <= y.time
  }

  function Transitions(events: seq<Event>): seq<Event> {
    Filter(IsTransition, Sort(events, ByTime()))
  }

  ghost predicate InTimeOrder(tr: seq<Event>) {
    forall i, j :: 0 <= i < j < |tr| ==> tr[i].time <= tr[j].time
  }

  // ------------------------------------------------ the quadratic definition

  predicate InGap(tr: seq<Event>, cfg: Config, i: nat, j: nat)
    requires i < |tr| && j < |tr|
  {
    cfg.minGap <= tr[i].time - tr[j].time <= cfg.window
  }

  /** Occurrence j could have caused i: another entity, inside the gap bounds. */
  predicate Candidates(tr: seq<Event>, cfg: Config, i: nat, j: nat)
    requires i < |tr|
  {
    j < i && tr[j].entity != tr[i].entity && InGap(tr, cfg, i, j)
  }

  /** j is the latest candidate occurrence of its own state before i. */
  ghost predicate Nearest(tr: seq<Event>, cfg: Config, i: nat, j: nat)
    requires i < |tr|
  {
    Candidates(tr, cfg, i, j) &&
    forall k: nat :: j < k && Candidates(tr, cfg, i, k) ==> KeyOf(tr[k]) != KeyOf(tr[j])
  }

  ghost predicate Hit(tr: seq<Event>, cfg: Config, key: PairKey, i: nat, j: nat)
    requires i < |tr|
  {
    Consequent(tr[i]) && KeyOf(tr[i]) == key.b && Nearest(tr, cfg, i, j) && KeyOf(tr[j]) == key.a
  }

  /** The hits on i that the scan has met once it has looked at every position above j. */
  ghost predicate FoundAbove(tr: seq<Event>, cfg: Config, key: PairKey, i: nat, j: int)
    requires i < |tr|
  {
    exists m: nat :: j < m && Hit(tr, cfg, key, i, m)
  }

  ghost function AntecedentOf(tr: seq<Event>, cfg: Config, key: PairKey, i: nat): nat
    requires i < |tr| && FoundAbove(tr, cfg, key, i, -1)
  {
    var m: nat :| Hit(tr, cfg, key, i, m); m
  }

  /** The consequents before position n that follow an occurrence of key.a. */
  ghost function Followers(tr: seq<Event>, cfg: Config, key: PairKey, n: nat): seq<nat>
    requires n <= |tr|
  {
    if n == 0 then []
    else Followers(tr, cfg, key, n - 1) + if FoundAbove(tr, cfg, key, n - 1, -1) then [n - 1] else []
  }

  ghost predicate AreFollowers(tr: seq<Event>, cfg: Config, key: PairKey, fs: seq<nat>) {
    forall k :: 0 <= k < |fs| ==> fs[k] < |tr| && FoundAbove(tr, cfg, key, fs[k], -1)
  }

  /** What the dictionary must hold for key after the consequents `fs`. */
  ghost function RecordOf(tr: seq<Event>, dateOf: int -> int, cfg: Config, key: PairKey, fs: seq<nat>): Record
    requires AreFollowers(tr, cfg, key, fs)
  {
    if fs == [] then Record({}, {}, [])
    else
      var l := |fs| - 1;
      var r := RecordOf(tr, dateOf, cfg, key, fs[..l]);
      var i := fs[l];
      Record(r.aIdx + {AntecedentOf(tr, cfg, key, i)}, r.days + {dateOf(tr[i].time)}, r.times + [tr[i].time])
  }

  lemma {:induction false} FollowersAreFollowers(tr: seq<Event>, cfg: Config, key: PairKey, n: nat)
    requires n <= |tr|
    ensures AreFollowers(tr, cfg, key, Followers(tr, cfg, key, n))
    ensures forall i: nat :: i in Followers(tr, cfg, key, n) <==> i < n && FoundAbove(tr, cfg, key, i, -1)
  {
    if n != 0 {
      FollowersAreFollowers(tr, cfg, key, n - 1);
    }
  }

  lemma HitIsUnique(tr: seq<Event>, cfg: Config, key: PairKey, i: nat, j: nat, m: nat)
    requires i < |tr| && Hit(tr, cfg, key, i, j) && Hit(tr, cfg, key, i, m)
    ensures j == m
  {
  }

  // ------------------------------------------------------------ the scan loop

  /** The dictionary entry for key is exactly its record. */
  ghost predicate Holds(tr: seq<Event>, dateOf: int -> int, cfg: Config, hits: map<PairKey, Record>, key: PairKey,
                        fs: seq<nat>) {
    && AreFollowers(tr, cfg, key, fs)
    && (key in hits <==> fs != [])
    && (key in hits ==> hits[key] == RecordOf(tr, dateOf, cfg, key, fs))
  }

  ghost function SoFar(tr: seq<Event>, cfg: Config, key: PairKey, i: nat, j: int): seq<nat>
    requires i < |tr|
  {
    Followers(tr, cfg, key, i) + if FoundAbove(tr, cfg, key, i, j) then [i] else []
  }

  /** State of `hits` when the scan for consequent i has looked above j. */
  ghost predicate Scanned(tr: seq<Event>, dateOf: int -> int, cfg: Config, hits: map<PairKey, Record>, i: nat, j: int)
    requires i < |tr|
  {
    forall key :: Holds(tr, dateOf, cfg, hits, key, SoFar(tr, cfg, key, i, j))
  }

  ghost predicate ScannedUpTo(tr: seq<Event>, dateOf: int -> int, cfg: Config, hits: map<PairKey, Record>, n: nat)
    requires n <= |tr|
  {
    forall key :: Holds(tr, dateOf, cfg, hits, key, Followers(tr, cfg, key, n))
  }

  ghost predicate SeenIs(tr: seq<Event>, cfg: Config, seen: set<StateKey>, i: nat, j: int)
    requires i < |tr|
  {
    forall k :: k in seen <==> exists m: nat :: j < m && Candidates(tr, cfg, i, m) && KeyOf(tr[m]) == k
  }

  lemma StartScan(tr: seq<Event>, dateOf: int -> int, cfg: Config, hits: map<PairKey, Record>, i: nat)
    requires i < |tr| && ScannedUpTo(tr, dateOf, cfg, hits, i)
    ensures Scanned(tr, dateOf, cfg, hits, i, i - 1)
  {
    var top := i - 1;
    forall key ensures Holds(tr, dateOf, cfg, hits, key, SoFar(tr, cfg, key, i, top)) {
      assert SoFar(tr, cfg, key, i, top) == Followers(tr, cfg, key, i);
    }
  }

  lemma EndScan(tr: seq<Event>, dateOf: int -> int, cfg: Config, hits: map<PairKey, Record>, i: nat, j: int)
    requires i < |tr| && Scanned(tr, dateOf, cfg, hits, i, j)
    requires j == -1 || !Consequent(tr[i]) || forall m: nat :: m <= j ==> !Candidates(tr, cfg, i, m)
    ensures ScannedUpTo(tr, dateOf, cfg, hits, i + 1)
  {
    var next := i + 1;
    forall key ensures Holds(tr, dateOf, cfg, hits, key, Followers(tr, cfg, key, next)) {
      assert FoundAbove(tr, cfg, key, i, j) <==> FoundAbove(tr, cfg, key, i, -1);
      assert SoFar(tr, cfg, key, i, j) == Followers(tr, cfg, key, i + 1);
    }
  }

  /** Position j adds nothing: not a candidate, or its state was seen nearer to i. */
  lemma SkipPosition(tr: seq<Event>, dateOf: int -> int, cfg: Config, hits: map<PairKey, Record>, i: nat, j: nat)
    requires j < i < |tr| && Scanned(tr, dateOf, cfg, hits, i, j)
    requires !Nearest(tr, cfg, i, j)
    ensures Scanned(tr, dateOf, cfg, hits, i, j - 1)
  {
    var below := j - 1;
    forall key ensures Holds(tr, dateOf, cfg, hits, key, SoFar(tr, cfg, key, i, below)) {
      assert FoundAbove(tr, cfg, key, i, j) <==> FoundAbove(tr, cfg, key, i, j - 1);
      assert Holds(tr, dateOf, cfg, hits, key, SoFar(tr, cfg, key, i, j));
    }
  }

  function Add(hits: map<PairKey, Record>, key: PairKey, j: nat, day: int, time: int): map<PairKey, Record> {
    var rec := if key in hits then hits[key] else Record({}, {}, []);
    hits[key := Record(rec.aIdx + {j}, rec.days + {day}, rec.times + [time])]
  }

  /** Position j is the nearest occurrence of its state: one record grows. */
  lemma RecordPosition(tr: seq<Event>, dateOf: int -> int, cfg: Config, hits: map<PairKey, Record>, i: nat, j: nat)
    requires j < i < |tr| && Scanned(tr, dateOf, cfg, hits, i, j)
    requires Consequent(tr[i]) && Nearest(tr, cfg, i, j)
    ensures Scanned(tr, dateOf, cfg, Add(hits, PairKey(KeyOf(tr[j]), KeyOf(tr[i])), j, dateOf(tr[i].time), tr[i].time),
        i, j - 1)
  {
    var hit := PairKey(KeyOf(tr[j]), KeyOf(tr[i]));
    var hits' := Add(hits, hit, j, dateOf(tr[i].time), tr[i].time);
    assert Hit(tr, cfg, hit, i, j);
    var below := j - 1;
    forall key ensures Holds(tr, dateOf, cfg, hits', key, SoFar(tr, cfg, key, i, below)) {
      assert Holds(tr, dateOf, cfg, hits, key, SoFar(tr, cfg, key, i, j));
      if key == hit {
        NewFollower(tr, dateOf, cfg, hit, i, j);
      } else {
        assert !Hit(tr, cfg, key, i, j);
        assert FoundAbove(tr, cfg, key, i, j) <==> FoundAbove(tr, cfg, key, i, j - 1);
      }
    }
  }

  lemma NewFollower(tr: seq<Event>, dateOf: int -> int, cfg: Config, key: PairKey, i: nat, j: nat)
    requires i < |tr| && Hit(tr, cfg, key, i, j)
    ensures var f := Followers(tr, cfg, key, i);
            && SoFar(tr, cfg, key, i, j) == f
            && SoFar(tr, cfg, key, i, j - 1) == f + [i]
            && AreFollowers(tr, cfg, key, f) && AreFollowers(tr, cfg, key, f + [i])
            && var r := RecordOf(tr, dateOf, cfg, key, f);
            RecordOf(tr, dateOf, cfg, key, f + [i])
              == Record(r.aIdx + {j}, r.days + {dateOf(tr[i].time)}, r.times + [tr[i].time])
  {
    var f := Followers(tr, cfg, key, i);
    FollowersAreFollowers(tr, cfg, key, i);
    forall m: nat | Hit(tr, cfg, key, i, m) ensures m == j {
      HitIsUnique(tr, cfg, key, i, j, m);
    }
    assert FoundAbove(tr, cfg, key, i, j - 1) && FoundAbove(tr, cfg, key, i, -1) && !FoundAbove(tr, cfg, key, i, j);
    assert AntecedentOf(tr, cfg, key, i) == j;
    assert (f + [i])[..|f|] == f;
  }

  // --------------------------------------------------------------- the method

  function Count(tr: seq<Event>, p: Event -> bool): nat {
    |Filter(p, tr)|
  }

  /** The Counter of all transitions into a state. */
  function NA(tr: seq<Event>, k: StateKey): nat {
    Count(tr, (e: Event) => KeyOf(e) == k)
  }

  /** The Counter of manual, actionable transitions into a state. */
  function NB(tr: seq<Event>, k: StateKey): nat {
    Count(tr, (e: Event) => Consequent(e) && KeyOf(e) == k)
  }

  function Ascending(): (int, int) -> bool {
    (x: int, y: int) => x <= y
  }

  function Last<T>(n: nat, xs: seq<T>): seq<T> {
    if |xs| <= n then xs else xs[|xs| - n..]
  }

  function PB(nB: nat, cfg: Config): real
    requires cfg.spanMinutes > 0.0
  {
    nB as real * (cfg.window as real / 60000000.0) / cfg.spanMinutes
  }

  function Lift(confidence: real, pB: real): real {
    if pB > 0.0 then confidence / pB else 0.0
  }

  /** The three gates on a record, and the candidate it becomes. */
  function Score(tr: seq<Event>, cfg: Config, key: PairKey, rec: Record): Option<Candidate>
    requires cfg.spanMinutes > 0.0 && cfg.daysObservedTotal > 0
    requires rec.times != [] && NA(tr, key.a) > 0
  {
    var n := |rec.aIdx|;
    var nA, nB := NA(tr, key.a), NB(tr, key.b);
    var confidence := n as real / nA as real;
    var lift := Lift(confidence, PB(nB, cfg));
    if n < cfg.minPairs || confidence < cfg.minConfidence || lift < cfg.minLift then None
    else
      var times := Sort(rec.times, Ascending());
      SortIsPermutation(rec.times, Ascending());
      Some(Candidate(key, |rec.days| as real / cfg.daysObservedTotal as real, confidence, lift, n,
                     cfg.daysObservedTotal, Last(10, times), nA, nB, times[0], times[|times| - 1]))
  }

  /** The record the quadratic definition gives for a pair. */
  ghost function PairRecord(tr: seq<Event>, dateOf: int -> int, cfg: Config, key: PairKey): Record {
    var f := Followers(tr, cfg, key, |tr|);
    if AreFollowers(tr, cfg, key, f) then RecordOf(tr, dateOf, cfg, key, f) else Record({}, {}, [])
  }

  ghost predicate HasPair(tr: seq<Event>, cfg: Config, key: PairKey) {
    Followers(tr, cfg, key, |tr|) != []
  }

  ghost function Mined(tr: seq<Event>, dateOf: int -> int, cfg: Config, key: PairKey): Option<Candidate>
    requires cfg.spanMinutes > 0.0 && cfg.daysObservedTotal > 0
  {
    if HasPair(tr, cfg, key) then
      PairBounds(tr, dateOf, cfg, key);
      Score(tr, cfg, key, PairRecord(tr, dateOf, cfg, key))
    else None
  }

  ghost predicate Emits(tr: seq<Event>, dateOf: int -> int, cfg: Config, out: seq<Candidate>)
    requires cfg.spanMinutes > 0.0 && cfg.daysObservedTotal > 0
  {
    && (forall c :: c in out ==> Mined(tr, dateOf, cfg, c.key) == Some(c))
    && (forall key :: Mined(tr, dateOf, cfg, key).Some? ==> Mined(tr, dateOf, cfg, key).value in out)
    && (forall i, j :: 0 <= i < j < |out| ==> out[i].key != out[j].key)
  }

  // ------------------------------------------------------------ the bounds

  lemma {:induction false} RecordSizes(tr: seq<Event>, dateOf: int -> int, cfg: Config, key: PairKey, fs: seq<nat>)
    requires AreFollowers(tr, cfg, key, fs)
    ensures var r := RecordOf(tr, dateOf, cfg, key, fs);
            && |r.times| == |fs| && |r.aIdx| <= |fs| && |r.days| <= |fs|
            && (fs != [] ==> r.aIdx != {} && r.days != {})
  {
    if fs != [] {
      RecordSizes(tr, dateOf, cfg, key, fs[..|fs| - 1]);
    }
  }

  ghost predicate HitFrom(tr: seq<Event>, cfg: Config, key: PairKey, fs: seq<nat>, m: nat) {
    exists i: nat :: i in fs && i < |tr| && Hit(tr, cfg, key, i, m)
  }

  lemma {:induction false} RecordAntecedents(tr: seq<Event>, dateOf: int -> int, cfg: Config, key: PairKey,
                                             fs: seq<nat>, m: nat)
    requires AreFollowers(tr, cfg, key, fs)
    ensures m in RecordOf(tr, dateOf, cfg, key, fs).aIdx <==> HitFrom(tr, cfg, key, fs, m)
  {
    if fs != [] {
      var l := |fs| - 1;
      var i, front := fs[l], fs[..l];
      RecordAntecedents(tr, dateOf, cfg, key, front, m);
      assert fs == front + [i];
      if Hit(tr, cfg, key, i, m) {
        HitIsUnique(tr, cfg, key, i, AntecedentOf(tr, cfg, key, i), m);
      }
    }
  }

  /** All antecedent occurrences of a pair. */
  ghost function Antecedents(tr: seq<Event>, cfg: Config, key: PairKey): set<nat> {
    set i: nat, j: nat | i < |tr| && j < |tr| && Hit(tr, cfg, key, i, j) :: j
  }

  lemma RecordIsAntecedents(tr: seq<Event>, dateOf: int -> int, cfg: Config, key: PairKey)
    ensures PairRecord(tr, dateOf, cfg, key).aIdx == Antecedents(tr, cfg, key)
  {
    var fs := Followers(tr, cfg, key, |tr|);
    FollowersAreFollowers(tr, cfg, key, |tr|);
    forall m ensures m in PairRecord(tr, dateOf, cfg, key).aIdx <==> m in Antecedents(tr, cfg, key) {
      RecordAntecedents(tr, dateOf, cfg, key, fs, m);
    }
  }

  lemma {:induction false} RecordDays(tr: seq<Event>, dateOf: int -> int, cfg: Config, key: PairKey, fs: seq<nat>)
    requires AreFollowers(tr, cfg, key, fs)
    ensures var r := RecordOf(tr, dateOf, cfg, key, fs); r.days == set t | t in r.times :: dateOf(t)
  {
    if fs != [] {
      RecordDays(tr, dateOf, cfg, key, fs[..|fs| - 1]);
    }
  }

  /** 0 < n_ab <= n_a and n_ab <= n_b for every recorded pair. */
  lemma PairBounds(tr: seq<Event>, dateOf: int -> int, cfg: Config, key: PairKey)
    ensures var r := PairRecord(tr, dateOf, cfg, key);
            HasPair(tr, cfg, key) ==>
              0 < |r.aIdx| <= NA(tr, key.a) && |r.aIdx| <= NB(tr, key.b) && r.times != [] && r.days != {}
  {
    if HasPair(tr, cfg, key) {
      var n := |tr|;
      var fs := Followers(tr, cfg, key, n);
      FollowersAreFollowers(tr, cfg, key, n);
      RecordSizes(tr, dateOf, cfg, key, fs);
      var r := PairRecord(tr, dateOf, cfg, key);
      var isA, isB := (e: Event) => KeyOf(e) == key.a, (e: Event) => Consequent(e) && KeyOf(e) == key.b;
      FilterSize(isA, tr);
      FilterSize(isB, tr);
      forall m | m in r.aIdx ensures m in Picked(isA, tr) {
        RecordAntecedents(tr, dateOf, cfg, key, fs, m);
      }
      SubsetSize(r.aIdx, Picked(isA, tr));
      FollowersAtMost(tr, cfg, key, n);
      assert Prefix(n, isB, tr) == Picked(isB, tr);
    }
  }

  ghost function Prefix<T>(n: nat, p: T -> bool, xs: seq<T>): set<nat>
    requires n <= |xs|
  {
    set i: nat | i < n && p(xs[i])
  }

  lemma FoundIsConsequent(tr: seq<Event>, cfg: Config, key: PairKey, i: nat)
    requires i < |tr|
    ensures FoundAbove(tr, cfg, key, i, -1) ==> Consequent(tr[i]) && KeyOf(tr[i]) == key.b
  {
  }

  lemma {:induction false} FollowersAtMost(tr: seq<Event>, cfg: Config, key: PairKey, n: nat)
    requires n <= |tr|
    ensures |Followers(tr, cfg, key, n)| <= |Prefix(n, (e: Event) => Consequent(e) && KeyOf(e) == key.b, tr)|
  {
    if n != 0 {
      var isB := (e: Event) => Consequent(e) && KeyOf(e) == key.b;
      FollowersAtMost(tr, cfg, key, n - 1);
      hide FoundAbove;
      var before, now := Prefix(n - 1, isB, tr), Prefix(n, isB, tr);
      assert now == before + if isB(tr[n - 1]) then {n - 1} else {};
      FoundIsConsequent(tr, cfg, key, n - 1);
    }
  }

  // -------------------------------------------------- independence of order

  function TimesOf(es: seq<Event>): (ts: seq<int>)
    ensures |ts| == |es|
  {
    if es == [] then [] else [es[0].time] + TimesOf(es[1..])
  }

  lemma {:induction false} TimesOfSnoc(es: seq<Event>, e: Event)
    ensures TimesOf(es + [e]) == TimesOf(es) + [e.time]
  {
    if es != [] {
      assert (es + [e])[1..] == es[1..] + [e];
      TimesOfSnoc(es[1..], e);
    }
  }

  /** The antecedent occurrence the definition picks, without positions. */
  ghost predicate NearestIn(T: set<Event>, cfg: Config, k: StateKey, b: Event, a: Event) {
    && a in T && KeyOf(a) == k && a.entity != b.entity
    && cfg.minGap <= b.time - a.time <= cfg.window
    && forall x :: x in T && KeyOf(x) == k && a.time < x.time ==> b.time - x.time < cfg.minGap
  }

  ghost predicate FollowsIn(T: set<Event>, cfg: Config, key: PairKey, b: Event) {
    Consequent(b) && KeyOf(b) == key.b && exists a :: NearestIn(T, cfg, key.a, b, a)
  }

  ghost function HitTimes(T: set<Event>, cfg: Config, key: PairKey): set<int> {
    set b, a | b in T && a in T && FollowsIn(T, cfg, key, b) && NearestIn(T, cfg, key.a, b, a) :: a.time
  }

  ghost function Bag(tr: seq<Event>): set<Event> {
    set e | e in tr
  }

  lemma HitIsNearestIn(tr: seq<Event>, cfg: Config, key: PairKey, i: nat, j: nat)
    requires InTimeOrder(tr) && cfg.minGap > 0
    requires i < |tr| && Hit(tr, cfg, key, i, j)
    ensures NearestIn(Bag(tr), cfg, key.a, tr[i], tr[j])
  {
  }

  lemma LatestCandidate(tr: seq<Event>, cfg: Config, i: nat, j: nat) returns (m: nat)
    requires i < |tr| && Candidates(tr, cfg, i, j)
    ensures Nearest(tr, cfg, i, m) && KeyOf(tr[m]) == KeyOf(tr[j])
  {
    m := j;
    var k := j + 1;
    while k < i
      invariant j < k && Candidates(tr, cfg, i, m) && m < k && KeyOf(tr[m]) == KeyOf(tr[j])
      invariant forall x: nat :: m < x < k && Candidates(tr, cfg, i, x) ==> KeyOf(tr[x]) != KeyOf(tr[j])
    {
      if Candidates(tr, cfg, i, k) && KeyOf(tr[k]) == KeyOf(tr[j]) {
        m := k;
      }
      k := k + 1;
    }
  }

  lemma NearestInIsHit(tr: seq<Event>, cfg: Config, key: PairKey, i: nat, a: Event) returns (m: nat)
    requires InTimeOrder(tr) && cfg.minGap > 0
    requires i < |tr| && Consequent(tr[i]) && KeyOf(tr[i]) == key.b
    requires NearestIn(Bag(tr), cfg, key.a, tr[i], a)
    ensures Hit(tr, cfg, key, i, m) && tr[m].time == a.time
  {
    var j: nat :| j < |tr| && tr[j] == a;
    assert Candidates(tr, cfg, i, j);
    m := LatestCandidate(tr, cfg, i, j);
    HitIsNearestIn(tr, cfg, key, i, m);
  }

  lemma FollowersInAnyOrder(tr: seq<Event>, cfg: Config, key: PairKey, i: nat)
    requires InTimeOrder(tr) && cfg.minGap > 0 && i < |tr|
    ensures FoundAbove(tr, cfg, key, i, -1) <==> FollowsIn(Bag(tr), cfg, key, tr[i])
  {
    if FoundAbove(tr, cfg, key, i, -1) {
      var j: nat :| Hit(tr, cfg, key, i, j);
      HitIsNearestIn(tr, cfg, key, i, j);
    }
    if FollowsIn(Bag(tr), cfg, key, tr[i]) {
      var a :| NearestIn(Bag(tr), cfg, key.a, tr[i], a);
      var m := NearestInIsHit(tr, cfg, key, i, a);
    }
  }

  ghost function TimesUpTo(tr: seq<Event>, dateOf: int -> int, cfg: Config, key: PairKey, n: nat): seq<int>
    requires n <= |tr|
  {
    FollowersAreFollowers(tr, cfg, key, n);
    RecordOf(tr, dateOf, cfg, key, Followers(tr, cfg, key, n)).times
  }

  lemma TimesGrow(tr: seq<Event>, dateOf: int -> int, cfg: Config, key: PairKey, n: nat)
    requires 0 < n <= |tr|
    ensures TimesUpTo(tr, dateOf, cfg, key, n)
         == TimesUpTo(tr, dateOf, cfg, key, n - 1)
             + if FoundAbove(tr, cfg, key, n - 1, -1) then [tr[n - 1].time] else []
  {
    var front := Followers(tr, cfg, key, n - 1);
    FollowersAreFollowers(tr, cfg, key, n);
    FollowersAreFollowers(tr, cfg, key, n - 1);
    if FoundAbove(tr, cfg, key, n - 1, -1) {
      assert (front + [n - 1])[..|front|] == front;
    } else {
      assert front + [] == front;
    }
  }

  lemma {:induction false} RecordTimes(tr: seq<Event>, dateOf: int -> int, cfg: Config, key: PairKey,
                                       p: Event -> bool, n: nat)
    requires InTimeOrder(tr) && cfg.minGap > 0 && n <= |tr|
    requires forall e :: p(e) <==> FollowsIn(Bag(tr), cfg, key, e)
    ensures TimesUpTo(tr, dateOf, cfg, key, n) == TimesOf(Filter(p, tr[..n]))
  {
    if n != 0 {
      RecordTimes(tr, dateOf, cfg, key, p, n - 1);
      TimesGrow(tr, dateOf, cfg, key, n);
      FollowersInAnyOrder(tr, cfg, key, n - 1);
      FilterGrows(p, tr, n);
    }
  }

  lemma FilterGrows(p: Event -> bool, tr: seq<Event>, n: nat)
    requires 0 < n <= |tr|
    ensures TimesOf(Filter(p, tr[..n])) == TimesOf(Filter(p, tr[..n - 1]))
        + if p(tr[n - 1]) then [tr[n - 1].time] else []
  {
    assert tr[..n] == tr[..n - 1] + [tr[n - 1]];
    FilterSnoc(p, tr[..n - 1], tr[n - 1]);
    if p(tr[n - 1]) {
      TimesOfSnoc(Filter(p, tr[..n - 1]), tr[n - 1]);
    } else {
      assert Filter(p, tr[..n - 1]) + [] == Filter(p, tr[..n - 1]);
    }
  }

  /** Two hits of one pair never share an instant, so counting occurrences is
      counting instants. */
  lemma HitsHaveDistinctTimes(tr: seq<Event>, cfg: Config, key: PairKey, i: nat, j: nat, k: nat)
    requires InTimeOrder(tr) && cfg.minGap > 0
    requires i < |tr| && Hit(tr, cfg, key, i, j)
    requires j < k < |tr| && KeyOf(tr[k]) == key.a
    ensures tr[k].time != tr[j].time
  {
  }

  function TimeAt(tr: seq<Event>, m: nat): int {
    if m < |tr| then tr[m].time else 0
  }

  lemma OccurrencesAreInstants(tr: seq<Event>, cfg: Config, key: PairKey)
    requires InTimeOrder(tr) && cfg.minGap > 0
    ensures |Antecedents(tr, cfg, key)| == |HitTimes(Bag(tr), cfg, key)|
  {
    var aIdx, instants := Antecedents(tr, cfg, key), HitTimes(Bag(tr), cfg, key);
    forall j, k | j in aIdx && k in aIdx && TimeAt(tr, j) == TimeAt(tr, k) ensures j == k {
      var i: nat :| i < |tr| && Hit(tr, cfg, key, i, j);
      var i': nat :| i' < |tr| && Hit(tr, cfg, key, i', k);
      if j < k {
        HitsHaveDistinctTimes(tr, cfg, key, i, j, k);
      } else if k < j {
        HitsHaveDistinctTimes(tr, cfg, key, i', k, j);
      }
    }
    RecordedInstants(tr, cfg, key);
    ImageSize<nat, int>(aIdx, instants, (m: nat) => TimeAt(tr, m));
  }

  lemma RecordedInstants(tr: seq<Event>, cfg: Config, key: PairKey)
    requires InTimeOrder(tr) && cfg.minGap > 0
    ensures HitTimes(Bag(tr), cfg, key) == set m: nat | m in Antecedents(tr, cfg, key) :: TimeAt(tr, m)
  {
    var aIdx, instants := Antecedents(tr, cfg, key), HitTimes(Bag(tr), cfg, key);
    forall m | m in aIdx ensures TimeAt(tr, m) in instants {
      var i: nat :| i < |tr| && Hit(tr, cfg, key, i, m);
      HitIsNearestIn(tr, cfg, key, i, m);
    }
    forall t | t in instants ensures exists m :: m in aIdx && TimeAt(tr, m) == t {
      var b, a :| b in Bag(tr) && a in Bag(tr) && FollowsIn(Bag(tr), cfg, key, b)
          && NearestIn(Bag(tr), cfg, key.a, b, a) && a.time == t;
      var i: nat :| i < |tr| && tr[i] == b;
      var m := NearestInIsHit(tr, cfg, key, i, a);
      assert m in aIdx && TimeAt(tr, m) == t;
    }
  }

  ghost predicate Comparable(cfg: Config) {
    cfg.spanMinutes > 0.0 && cfg.daysObservedTotal > 0
  }

  lemma TransitionsOrdered(events: seq<Event>)
    ensures InTimeOrder(Transitions(events))
  {
    SortIsSorted(events, ByTime());
    FilterKeepsOrder(Sort(events, ByTime()));
  }

  lemma {:induction false} FilterKeepsOrder(es: seq<Event>)
    requires InTimeOrder(es)
    ensures InTimeOrder(Filter(IsTransition, es))
  {
    if es != [] {
      var rest := Filter(IsTransition, es[1..]);
      FilterKeepsOrder(es[1..]);
      forall k | 0 <= k < |rest| ensures es[0].time <= rest[k].time {
        FilterMembers(IsTransition, es[1..], rest[k]);
        var j :| 0 <= j < |es[1..]| && es[1..][j] == rest[k];
        assert es[j + 1] == rest[k];
      }
    }
  }

  lemma TransitionsKeepBag(xs: seq<Event>, ys: seq<Event>)
    requires multiset(xs) == multiset(ys)
    ensures multiset(Transitions(xs)) == multiset(Transitions(ys))
    ensures Bag(Transitions(xs)) == Bag(Transitions(ys))
  {
    SortIsPermutation(xs, ByTime());
    SortIsPermutation(ys, ByTime());
    FilterKeepsBag(IsTransition, Sort(xs, ByTime()), Sort(ys, ByTime()));
    SameBagSameSet(Transitions(xs), Transitions(ys));
    SameBagSameSet(Transitions(ys), Transitions(xs));
  }

  lemma SameBagSameSet(xs: seq<Event>, ys: seq<Event>)
    requires multiset(xs) == multiset(ys)
    ensures Bag(xs) <= Bag(ys)
  {
    forall e | e in xs ensures e in ys {
      assert e in multiset(ys);
    }
  }

  lemma {:induction false} TimesOfCounts(es: seq<Event>, t: int)
    ensures multiset(TimesOf(es))[t] == |Filter((e: Event) => e.time == t, es)|
  {
    if es != [] {
      TimesOfCounts(es[1..], t);
    }
  }

  lemma TimesOfBag(xs: seq<Event>, ys: seq<Event>)
    requires multiset(xs) == multiset(ys)
    ensures multiset(TimesOf(xs)) == multiset(TimesOf(ys))
  {
    forall t ensures multiset(TimesOf(xs))[t] == multiset(TimesOf(ys))[t] {
      TimesOfCounts(xs, t);
      TimesOfCounts(ys, t);
      FilterKeepsBag((e: Event) => e.time == t, xs, ys);
      SameBagSameLength(Filter((e: Event) => e.time == t, xs), Filter((e: Event) => e.time == t, ys));
    }
  }

  /** With a positive minimum gap the result does not depend on the order the
      events arrive in, not even among events with the same timestamp: the same
      pairs are emitted with the same counts, times and metrics. */
  lemma OrderIndependent(xs: seq<Event>, ys: seq<Event>, dateOf: int -> int, cfg: Config, key: PairKey)
    requires Comparable(cfg) && cfg.minGap > 0 && multiset(xs) == multiset(ys)
    ensures Mined(Transitions(xs), dateOf, cfg, key) == Mined(Transitions(ys), dateOf, cfg, key)
  {
    var tx, ty := Transitions(xs), Transitions(ys);
    TransitionsOrdered(xs);
    TransitionsOrdered(ys);
    TransitionsKeepBag(xs, ys);
    SameRecords(tx, ty, dateOf, cfg, key);
    SameCounts(tx, ty, dateOf, cfg, key);
    PairBounds(tx, dateOf, cfg, key);
    PairBounds(ty, dateOf, cfg, key);
    if HasPair(tx, cfg, key) {
      SameScore(tx, ty, cfg, key, PairRecord(tx, dateOf, cfg, key), PairRecord(ty, dateOf, cfg, key));
    }
  }

  lemma SameRecords(tx: seq<Event>, ty: seq<Event>, dateOf: int -> int, cfg: Config, key: PairKey)
    requires cfg.minGap > 0 && InTimeOrder(tx) && InTimeOrder(ty)
    requires multiset(tx) == multiset(ty) && Bag(tx) == Bag(ty)
    ensures HasPair(tx, cfg, key) <==> HasPair(ty, cfg, key)
    ensures PairRecord(tx, dateOf, cfg, key).days == PairRecord(ty, dateOf, cfg, key).days
    ensures multiset(PairRecord(tx, dateOf, cfg, key).times) == multiset(PairRecord(ty, dateOf, cfg, key).times)
  {
    var rx, ry := PairRecord(tx, dateOf, cfg, key), PairRecord(ty, dateOf, cfg, key);
    SameTimes(tx, ty, dateOf, cfg, key);
    SameBagSameLength(rx.times, ry.times);
    RecordShape(tx, dateOf, cfg, key);
    RecordShape(ty, dateOf, cfg, key);
    forall t ensures t in rx.times <==> t in ry.times {
      assert t in multiset(rx.times) <==> t in multiset(ry.times);
    }
  }

  lemma RecordShape(tr: seq<Event>, dateOf: int -> int, cfg: Config, key: PairKey)
    ensures var r := PairRecord(tr, dateOf, cfg, key);
            && (r.times == [] <==> !HasPair(tr, cfg, key))
            && r.days == set t | t in r.times :: dateOf(t)
  {
    var fs := Followers(tr, cfg, key, |tr|);
    FollowersAreFollowers(tr, cfg, key, |tr|);
    RecordSizes(tr, dateOf, cfg, key, fs);
    RecordDays(tr, dateOf, cfg, key, fs);
  }

  lemma SameTimes(tx: seq<Event>, ty: seq<Event>, dateOf: int -> int, cfg: Config, key: PairKey)
    requires cfg.minGap > 0 && InTimeOrder(tx) && InTimeOrder(ty)
    requires multiset(tx) == multiset(ty) && Bag(tx) == Bag(ty)
    ensures multiset(PairRecord(tx, dateOf, cfg, key).times) == multiset(PairRecord(ty, dateOf, cfg, key).times)
  {
    var p := (e: Event) => FollowsIn(Bag(tx), cfg, key, e);
    RecordTimes(tx, dateOf, cfg, key, p, |tx|);
    RecordTimes(ty, dateOf, cfg, key, p, |ty|);
    assert tx[..|tx|] == tx && ty[..|ty|] == ty;
    FilterKeepsBag(p, tx, ty);
    TimesOfBag(Filter(p, tx), Filter(p, ty));
    FollowersAreFollowers(tx, cfg, key, |tx|);
    FollowersAreFollowers(ty, cfg, key, |ty|);
  }

  lemma SameCounts(tx: seq<Event>, ty: seq<Event>, dateOf: int -> int, cfg: Config, key: PairKey)
    requires cfg.minGap > 0 && InTimeOrder(tx) && InTimeOrder(ty)
    requires multiset(tx) == multiset(ty) && Bag(tx) == Bag(ty)
    ensures |PairRecord(tx, dateOf, cfg, key).aIdx| == |PairRecord(ty, dateOf, cfg, key).aIdx|
    ensures NA(tx, key.a) == NA(ty, key.a) && NB(tx, key.b) == NB(ty, key.b)
  {
    RecordIsAntecedents(tx, dateOf, cfg, key);
    RecordIsAntecedents(ty, dateOf, cfg, key);
    OccurrencesAreInstants(tx, cfg, key);
    OccurrencesAreInstants(ty, cfg, key);
    var isA, isB := (e: Event) => KeyOf(e) == key.a, (e: Event) => Consequent(e) && KeyOf(e) == key.b;
    FilterKeepsBag(isA, tx, ty);
    SameBagSameLength(Filter(isA, tx), Filter(isA, ty));
    FilterKeepsBag(isB, tx, ty);
    SameBagSameLength(Filter(isB, tx), Filter(isB, ty));
  }

  lemma SameScore(tx: seq<Event>, ty: seq<Event>, cfg: Config, key: PairKey, r: Record, r': Record)
    requires Comparable(cfg) && r.times != [] && NA(tx, key.a) > 0
    requires multiset(r.times) == multiset(r'.times) && r.days == r'.days && |r.aIdx| == |r'.aIdx|
    requires NA(tx, key.a) == NA(ty, key.a) && NB(tx, key.b) == NB(ty, key.b)
    ensures r'.times != [] && Score(tx, cfg, key, r) == Score(ty, cfg, key, r')
  {
    SameBagSameLength(r.times, r'.times);
    SortIsPermutation(r.times, Ascending());
    SortIsPermutation(r'.times, Ascending());
    SortIsSorted(r.times, Ascending());
    SortIsSorted(r'.times, Ascending());
    SortedIsUnique(Sort(r.times, Ascending()), Sort(r'.times, Ascending()), Ascending());
  }

  // ------------------------------------------------- when the order matters

  function Lamp(entity: string, triggeredBy: string): Event {
    Event(0, entity, "light", None, Some("on"), triggeredBy, None)
  }

  const LAMPS := PairKey(StateKey("light.a", Some("on")), StateKey("light.b", Some("on")))

  lemma SortTied(x: Event, y: Event)
    requires x.time == y.time && IsTransition(x) && IsTransition(y)
    ensures Transitions([x, y]) == [x, y]
  {
    assert [x, y][1..] == [y] && [y][1..] == [];
    assert Sort([y], ByTime()) == [y];
    assert Sort([x, y], ByTime()) == [x, y];
    assert Filter(IsTransition, [y]) == [y];
  }

  /** Without a positive minimum gap, two events at one instant make a pair in one
      order and none in the other. */
  lemma OrderMatters(cfg: Config) returns (xs: seq<Event>, ys: seq<Event>)
    requires cfg.minGap <= 0 <= cfg.window
    ensures multiset(xs) == multiset(ys)
    ensures HasPair(Transitions(xs), cfg, LAMPS) && !HasPair(Transitions(ys), cfg, LAMPS)
  {
    var a, b := Lamp("light.a", "automation"), Lamp("light.b", "manual");
    xs, ys := [a, b], [b, a];
    SortTied(a, b);
    SortTied(b, a);
    FollowersAreFollowers(xs, cfg, LAMPS, 2);
    assert Hit(xs, cfg, LAMPS, 1, 0);
    assert FoundAbove(xs, cfg, LAMPS, 1, -1);
    NoFollowers(ys, cfg, LAMPS, 2);
  }

  lemma {:induction false} NoFollowers(tr: seq<Event>, cfg: Config, key: PairKey, n: nat)
    requires n <= |tr| && forall i: nat :: i < n ==> !FoundAbove(tr, cfg, key, i, -1)
    ensures Followers(tr, cfg, key, n) == []
  {
    if n != 0 {
      NoFollowers(tr, cfg, key, n - 1);
    }
  }

  lemma NegativeWindowFindsNothing(tr: seq<Event>, cfg: Config, key: PairKey)
    requires InTimeOrder(tr) && cfg.window < 0
    ensures !HasPair(tr, cfg, key)
  {
    forall i: nat | i < |tr| ensures !FoundAbove(tr, cfg, key, i, -1) {
      forall j: nat ensures !Hit(tr, cfg, key, i, j) {
        assert j < i ==> tr[j].time <= tr[i].time;
      }
    }
    NoFollowers(tr, cfg, key, |tr|);
  }

  ghost predicate PairsIgnoreOrder(cfg: Config) {
    forall xs: seq<Event>, ys: seq<Event>, key: PairKey ::
      multiset(xs) == multiset(ys) ==> (HasPair(Transitions(xs), cfg, key) <==> HasPair(Transitions(ys), cfg, key))
  }

  /** Which pairs are found is independent of the input order exactly when simultaneous
      events never pair: the minimum gap is positive, or the window is negative. */
  lemma PairsIgnoreOrderIff(cfg: Config)
    ensures PairsIgnoreOrder(cfg) <==> cfg.minGap > 0 || cfg.window < 0
  {
    hide HasPair, Transitions;
    if cfg.minGap > 0 || cfg.window < 0 {
      forall xs: seq<Event>, ys: seq<Event>, key: PairKey | multiset(xs) == multiset(ys)
        ensures HasPair(Transitions(xs), cfg, key) <==> HasPair(Transitions(ys), cfg, key)
      {
        TransitionsOrdered(xs);
        TransitionsOrdered(ys);
        if cfg.window < 0 {
          NegativeWindowFindsNothing(Transitions(xs), cfg, key);
          NegativeWindowFindsNothing(Transitions(ys), cfg, key);
        } else {
          TransitionsKeepBag(xs, ys);
          SameRecords(Transitions(xs), Transitions(ys), (time: int) => 0, cfg, key);
        }
      }
    } else {
      var xs, ys := OrderMatters(cfg);
    }
  }

  // --------------------------------------------------------------- the miner

  /** The keys of the dictionary in insertion order. */
  ghost predicate InsertionOrder(hits: map<PairKey, Record>, order: seq<PairKey>) {
    Distinct(order) && forall key :: key in order <==> key in hits
  }

  ghost predicate EmitsPrefix(tr: seq<Event>, dateOf: int -> int, cfg: Config, done: seq<PairKey>, out: seq<Candidate>)
    requires Comparable(cfg)
  {
    && (forall c :: c in out ==> Mined(tr, dateOf, cfg, c.key) == Some(c) && c.key in done)
    && (forall key :: key in done && Mined(tr, dateOf, cfg, key).Some? ==> Mined(tr, dateOf, cfg, key).value in out)
    && (forall i, j :: 0 <= i < j < |out| ==> out[i].key != out[j].key)
  }

  lemma ScoreKeepsKey(tr: seq<Event>, cfg: Config, key: PairKey, rec: Record)
    requires Comparable(cfg) && rec.times != [] && NA(tr, key.a) > 0
    ensures Score(tr, cfg, key, rec).Some? ==> Score(tr, cfg, key, rec).value.key == key
  {
  }

  lemma HeldIsPair(tr: seq<Event>, dateOf: int -> int, cfg: Config, hits: map<PairKey, Record>, key: PairKey)
    requires Comparable(cfg) && ScannedUpTo(tr, dateOf, cfg, hits, |tr|)
    ensures key in hits <==> HasPair(tr, cfg, key)
    ensures key in hits ==>
              && hits[key] == PairRecord(tr, dateOf, cfg, key) && hits[key].times != [] && NA(tr, key.a) > 0
              && Mined(tr, dateOf, cfg, key) == Score(tr, cfg, key, hits[key])
  {
    assert Holds(tr, dateOf, cfg, hits, key, Followers(tr, cfg, key, |tr|));
    PairBounds(tr, dateOf, cfg, key);
  }

  /** A state is in `seen` exactly when position j is not its nearest candidate. */
  lemma SeenDecides(tr: seq<Event>, cfg: Config, seen: set<StateKey>, i: nat, j: nat)
    requires j < i < |tr| && SeenIs(tr, cfg, seen, i, j)
    ensures Nearest(tr, cfg, i, j) <==> Candidates(tr, cfg, i, j) && KeyOf(tr[j]) !in seen
    ensures SeenIs(tr, cfg, if Candidates(tr, cfg, i, j) then seen + {KeyOf(tr[j])} else seen, i, j - 1)
  {
  }

  lemma NothingSeen(tr: seq<Event>, cfg: Config, i: nat)
    requires i < |tr|
    ensures SeenIs(tr, cfg, {}, i, i - 1)
  {
  }

  lemma AddKeepsOrder(hits: map<PairKey, Record>, order: seq<PairKey>, key: PairKey, j: nat, day: int, time: int)
    requires InsertionOrder(hits, order)
    ensures InsertionOrder(Add(hits, key, j, day, time), if key in hits then order else order + [key])
  {
  }

  /** The outer loop over the consequents. */
  method ScanHits(tr: seq<Event>, dateOf: int -> int, cfg: Config) returns (hits: map<PairKey, Record>,
                  order: seq<PairKey>)
    requires InTimeOrder(tr)
    ensures ScannedUpTo(tr, dateOf, cfg, hits, |tr|)
    ensures InsertionOrder(hits, order)
  {
    hits, order := map[], [];
    for i := 0 to |tr|
      invariant ScannedUpTo(tr, dateOf, cfg, hits, i)
      invariant InsertionOrder(hits, order)
    {
      if Consequent(tr[i]) {
        hits, order := ScanBack(tr, dateOf, cfg, i, hits, order);
      } else {
        StartScan(tr, dateOf, cfg, hits, i);
        EndScan(tr, dateOf, cfg, hits, i, i - 1);
      }
    }
  }

  /** The inner loop: backward from consequent i, leaving at the first event older
      than the window, one hit per antecedent state. */
  method ScanBack(tr: seq<Event>, dateOf: int -> int, cfg: Config, i: nat, hits0: map<PairKey, Record>,
                  order0: seq<PairKey>)
    returns (hits: map<PairKey, Record>, order: seq<PairKey>)
    requires InTimeOrder(tr) && i < |tr| && Consequent(tr[i])
    requires ScannedUpTo(tr, dateOf, cfg, hits0, i) && InsertionOrder(hits0, order0)
    ensures ScannedUpTo(tr, dateOf, cfg, hits, i + 1)
    ensures InsertionOrder(hits, order)
  {
    hide Scanned, ScannedUpTo, SeenIs, Nearest, Add;
    hits, order := hits0, order0;
    NothingSeen(tr, cfg, i);
    var b := tr[i];
    var seen: set<StateKey> := {};
    var j := i - 1;
    StartScan(tr, dateOf, cfg, hits, i);
    while j >= 0
      invariant -1 <= j < i
      invariant Scanned(tr, dateOf, cfg, hits, i, j)
      invariant SeenIs(tr, cfg, seen, i, j)
      invariant InsertionOrder(hits, order)
      decreases j
    {
      var a := tr[j];
      var gap := b.time - a.time;
      if gap > cfg.window {
        break;
      }
      var akey := KeyOf(a);
      SeenDecides(tr, cfg, seen, i, j);
      if gap < cfg.minGap || a.entity == b.entity {
        SkipPosition(tr, dateOf, cfg, hits, i, j);
      } else if akey in seen {
        assert seen + {akey} == seen;
        SkipPosition(tr, dateOf, cfg, hits, i, j);
      } else {
        seen := seen + {akey};
        var key := PairKey(akey, KeyOf(b));
        RecordPosition(tr, dateOf, cfg, hits, i, j);
        AddKeepsOrder(hits, order, key, j, dateOf(b.time), b.time);
        if key !in hits {
          order := order + [key];
        }
        hits := Add(hits, key, j, dateOf(b.time), b.time);
      }
      j := j - 1;
    }
    assert j == -1 || b.time - tr[j].time > cfg.window;
    EndScan(tr, dateOf, cfg, hits, i, j);
  }

  method MineEventPairs(events: seq<Event>, dateOf: int -> int, cfg: Config) returns (out: seq<Candidate>)
    ensures !Comparable(cfg) ==> out == []
    ensures Comparable(cfg) ==> Emits(Transitions(events), dateOf, cfg, out)
  {
    if cfg.daysObservedTotal <= 0 || cfg.spanMinutes <= 0.0 {
      return [];
    }
    hide ScannedUpTo, Mined, Score, Followers;
    var tr := Transitions(events);
    TransitionsOrdered(events);
    var hits, order := ScanHits(tr, dateOf, cfg);
    out := [];
    for k := 0 to |order|
      invariant EmitsPrefix(tr, dateOf, cfg, order[..k], out)
    {
      var key := order[k];
      assert key in hits;
      HeldIsPair(tr, dateOf, cfg, hits, key);
      assert order[..k + 1] == order[..k] + [key] && key !in order[..k];
      var scored := Score(tr, cfg, key, hits[key]);
      ScoreKeepsKey(tr, cfg, key, hits[key]);
      if scored.Some? {
        out := out + [scored.value];
      }
    }
    assert order[..|order|] == order;
    forall key | Mined(tr, dateOf, cfg, key).Some? ensures key in order {
      HeldIsPair(tr, dateOf, cfg, hits, key);
    }
  }

  // ------------------------------------------------------ what is emitted

  /** Every emitted pattern has 0 < confidence <= 1 without dividing by zero, and
      as many occurrences as the smaller Counter allows at most. */
  lemma EmittedCounts(tr: seq<Event>, dateOf: int -> int, cfg: Config, c: Candidate)
    requires Comparable(cfg) && Mined(tr, dateOf, cfg, c.key) == Some(c)
    ensures 0 < c.occurrences <= c.nA && c.occurrences <= c.nB
    ensures 0.0 < c.confidence <= 1.0 && c.confidence * c.nA as real == c.occurrences as real
    ensures c.firstSeen <= c.lastSeen
  {
    hide PairRecord, HasPair, NA, NB, Sort;
    PairBounds(tr, dateOf, cfg, c.key);
    RatioAtMostOne(c.occurrences, c.nA);
    FirstBeforeLast(PairRecord(tr, dateOf, cfg, c.key).times);
  }

  lemma FirstBeforeLast(ts: seq<int>)
    requires ts != []
    ensures var s := Sort(ts, Ascending()); |s| == |ts| && s[0] <= s[|s| - 1]
  {
    var s := Sort(ts, Ascending());
    SortIsPermutation(ts, Ascending());
    SortIsSorted(ts, Ascending());
    assert |s| > 1 ==> Ascending()(s[0], s[|s| - 1]);
  }

  /** The window of an emitted pair is wide enough to hold its minimum gap; when it
      is positive the chance rate is too, and the lift is the honest quotient. */
  lemma EmittedLift(tr: seq<Event>, dateOf: int -> int, cfg: Config, c: Candidate)
    requires Comparable(cfg) && Mined(tr, dateOf, cfg, c.key) == Some(c)
    ensures cfg.minGap <= cfg.window
    ensures cfg.window > 0 ==> PB(c.nB, cfg) > 0.0 && c.lift * PB(c.nB, cfg) == c.confidence
  {
    PairBounds(tr, dateOf, cfg, c.key);
    FollowersAreFollowers(tr, cfg, c.key, |tr|);
    var i := Followers(tr, cfg, c.key, |tr|)[0];
    var j: nat :| Hit(tr, cfg, c.key, i, j);
    assert InGap(tr, cfg, i, j);
    if cfg.window > 0 {
      ChanceRatePositive(c.nB, cfg);
      Quotient(c.confidence, PB(c.nB, cfg));
    }
  }

  lemma Quotient(x: real, y: real)
    requires y > 0.0
    ensures x / y * y == x
  {
  }

  /** Support is positive, and at most 1 once the observed-day total covers the events'
      local dates. */
  lemma EmittedSupport(tr: seq<Event>, dateOf: int -> int, cfg: Config, c: Candidate)
    requires Comparable(cfg) && Mined(tr, dateOf, cfg, c.key) == Some(c)
    requires cfg.daysObservedTotal >= |set e | e in tr :: dateOf(e.time)|
    ensures 0.0 < c.support <= 1.0
  {
    PairBounds(tr, dateOf, cfg, c.key);
    DaysAreObserved(tr, dateOf, cfg, c.key);
    RatioAtMostOne(|PairRecord(tr, dateOf, cfg, c.key).days|, cfg.daysObservedTotal);
  }

  lemma RatioAtMostOne(n: nat, d: int)
    requires 0 < d && n <= d
    ensures n as real / d as real <= 1.0 && (n as real / d as real) * d as real == n as real
    ensures n > 0 ==> n as real / d as real > 0.0
    ensures n as real / d as real >= 0.0
  {
  }

  lemma ChanceRatePositive(nB: nat, cfg: Config)
    requires nB > 0 && cfg.window > 0 && cfg.spanMinutes > 0.0
    ensures PB(nB, cfg) > 0.0
  {
  }

  lemma DaysAreObserved(tr: seq<Event>, dateOf: int -> int, cfg: Config, key: PairKey)
    ensures |PairRecord(tr, dateOf, cfg, key).days| <= |set e | e in tr :: dateOf(e.time)|
  {
    var n := |tr|;
    var fs := Followers(tr, cfg, key, n);
    FollowersAreFollowers(tr, cfg, key, n);
    FollowerDays(tr, dateOf, cfg, key, fs);
    SubsetSize(PairRecord(tr, dateOf, cfg, key).days, set e | e in tr :: dateOf(e.time));
  }

  lemma {:induction false} FollowerDays(tr: seq<Event>, dateOf: int -> int, cfg: Config, key: PairKey, fs: seq<nat>)
    requires AreFollowers(tr, cfg, key, fs)
    ensures RecordOf(tr, dateOf, cfg, key, fs).days <= set e | e in tr :: dateOf(e.time)
  {
    if fs != [] {
      FollowerDays(tr, dateOf, cfg, key, fs[..|fs| - 1]);
      assert tr[fs[|fs| - 1]] in tr;
    }
  }
}
