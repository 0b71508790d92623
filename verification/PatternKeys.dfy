/** Key reconciliation, dedupe and upsert of mined patterns
    (src/pae/miner/service.py): how a habit keeps its row between nights. */
module PatternKeys {
  import opened Prelude
  import opened Sorting
  import opened Circle

  // --------------------------------------------------------------- the data

  /** "tod:{entity}:{action}:{day_type}:{bucket}" and "pair:{a}:{s}->{b}:{t}". */
  datatype Key =
    | TodKey(entity: string, action: string, dayType: Option<string>, bucket: int)
    | PairKey(trigger: string, triggerState: string, entity: string, action: string)

  /** The habit a time-of-day pattern is about, apart from its clock time. */
  datatype Habit = Habit(entity: string, action: string, dayType: Option<string>)

  datatype Metrics = Metrics(
    support: real, confidence: real, lift: real, consistency: Option<real>, std: Option<real>,
    daysObserved: int, suspectedSchedule: bool)

  /** `tod` is the circular mean in seconds of the day; None for event pairs. */
  datatype Candidate = Candidate(
    isTod: bool, key: Key, habit: Habit, tod: Option<int>, occurrences: nat,
    metrics: Metrics, firstSeen: int, lastSeen: int)

  datatype Status = New | Proposed | Rejected

  datatype Row = Row(
    isTod: bool, habit: Habit, tod: Option<int>, occurrences: nat,
    metrics: Metrics, firstSeen: int, lastSeen: int, minedAt: int, status: Status)

  type Table = map<Key, Row>

  /** A row of the SELECT over the stored time-of-day patterns. */
  datatype Stored = Stored(key: Key, habit: Habit, tod: Option<int>)

  // ------------------------------------------------------- nearest in range

  datatype Choice = Choice(key: Key, dist: nat)

  /** The rows of one habit, in listing order. */
  function RowsOf(existing: seq<Stored>, habit: Habit): seq<(Key, int)> {
    if existing == [] then []
    else
      var last := existing[|existing| - 1];
      RowsOf(existing[..|existing| - 1], habit)
        + if last.tod.Some? && last.habit == habit then [(last.key, last.tod.value)] else []
  }

  /** The running best of the inner loop: nearest within tolerance, the later of equals. */
  function NearestOf(rows: seq<(Key, int)>, minute: int, tolerance: int): Option<Choice> {
    if rows == [] then None
    else
      var best := NearestOf(rows[..|rows| - 1], minute, tolerance);
      var row := rows[|rows| - 1];
      var dist := Dist(minute, row.1);
      if dist <= (if best.Some? then best.value.dist else tolerance) then Some(Choice(row.0, dist)) else best
  }

  function Nearest(c: Candidate, existing: seq<Stored>, tolerance: int): Option<Choice> {
    if c.isTod && c.tod.Some? then NearestOf(RowsOf(existing, c.habit), c.tod.value, tolerance) else None
  }

  /** row stores the same habit at a clock time within tolerance of c. */
  ghost predicate InRange(c: Candidate, row: Stored, tolerance: int) {
    c.isTod && c.tod.Some? && row.tod.Some? && row.habit == c.habit && Dist(c.tod.value, row.tod.value) <= tolerance
  }

  lemma {:induction false} RowsOfMembers(existing: seq<Stored>, habit: Habit, row: (Key, int))
    ensures row in RowsOf(existing, habit) <==> Stored(row.0, habit, Some(row.1)) in existing
  {
    if existing != [] {
      var front, last := existing[..|existing| - 1], existing[|existing| - 1];
      assert existing == front + [last];
      RowsOfMembers(front, habit, row);
    }
  }

  /** Row m is the one chosen: every later row is further away. */
  ghost predicate LastNearest(rows: seq<(Key, int)>, minute: int, m: nat, best: Choice) {
    && m < |rows| && rows[m].0 == best.key && Dist(minute, rows[m].1) == best.dist
    && forall l :: m < l < |rows| ==> best.dist < Dist(minute, rows[l].1)
  }

  /** The nearest row within tolerance; of equally near ones the last listed. */
  lemma {:induction false} NearestOfIsLeast(rows: seq<(Key, int)>, minute: int, tolerance: int)
    ensures var best := NearestOf(rows, minute, tolerance);
            && (best.Some? ==> best.value.dist <= tolerance)
            && (best.Some? ==> exists m :: LastNearest(rows, minute, m, best.value))
            && (forall row :: row in rows && Dist(minute, row.1) <= tolerance ==>
                best.Some? && best.value.dist <= Dist(minute, row.1))
  {
    if rows != [] {
      var front, last := rows[..|rows| - 1], rows[|rows| - 1];
      assert rows == front + [last];
      NearestOfIsLeast(front, minute, tolerance);
      var best := NearestOf(rows, minute, tolerance);
      var before := NearestOf(front, minute, tolerance);
      if Dist(minute, last.1) <= (if before.Some? then before.value.dist else tolerance) {
        assert LastNearest(rows, minute, |front|, best.value);
      } else if best.Some? {
        var m: nat :| LastNearest(front, minute, m, best.value);
        assert LastNearest(rows, minute, m, best.value);
      }
    }
  }

  /** The key a candidate contests is that of a nearest in-range row; it contests
      none only when no row is in range. */
  lemma NearestIsLeast(c: Candidate, existing: seq<Stored>, tolerance: int)
    ensures var best := Nearest(c, existing, tolerance);
            best.Some? ==> exists row :: row in existing && row.key == best.value.key && InRange(c, row, tolerance)
                                         && Dist(c.tod.value, row.tod.value) == best.value.dist
    ensures forall row :: row in existing && InRange(c, row, tolerance) ==>
              Nearest(c, existing, tolerance).Some?
                  && Nearest(c, existing, tolerance).value.dist <= Dist(c.tod.value, row.tod.value)
  {
    if c.isTod && c.tod.Some? {
      var rows := RowsOf(existing, c.habit);
      NearestOfIsLeast(rows, c.tod.value, tolerance);
      var best := Nearest(c, existing, tolerance);
      if best.Some? {
        var m: nat :| LastNearest(rows, c.tod.value, m, best.value);
        var row := rows[m];
        RowsOfMembers(existing, c.habit, row);
        assert InRange(c, Stored(row.0, c.habit, Some(row.1)), tolerance);
      }
      forall row | row in existing && InRange(c, row, tolerance)
        ensures best.Some? && best.value.dist <= Dist(c.tod.value, row.tod.value)
      {
        RowsOfMembers(existing, c.habit, (row.key, row.tod.value));
        assert row == Stored(row.key, c.habit, Some(row.tod.value));
      }
    }
  }

  // ----------------------------------------------------------- who gets a key

  /** The pair (distance, index) decides: smaller first. */
  predicate Before(d: nat, i: nat, d': nat, i': nat) {
    d < d' || (d == d' && i < i')
  }

  /** Candidate i contests a key and is the least contender for it. */
  ghost predicate Wins(cands: seq<Candidate>, existing: seq<Stored>, tolerance: int, i: nat)
    requires i < |cands|
  {
    var mine := Nearest(cands[i], existing, tolerance);
    mine.Some? && forall j: nat :: j < |cands| && j != i ==> Yields(cands, existing, tolerance, j, mine.value, i)
  }

  /** Candidate j does not contest the key, or contests it from behind. */
  ghost predicate Yields(cands: seq<Candidate>, existing: seq<Stored>, tolerance: int, j: nat, mine: Choice, i: nat)
    requires j < |cands|
  {
    var other := Nearest(cands[j], existing, tolerance);
    other.Some? && other.value.key == mine.key ==> Before(mine.dist, i, other.value.dist, j)
  }

  ghost function Adopted(cands: seq<Candidate>, existing: seq<Stored>, tolerance: int, i: nat): Candidate
    requires i < |cands|
  {
    if Wins(cands, existing, tolerance, i)
    then cands[i].(key := Nearest(cands[i], existing, tolerance).value.key)
    else cands[i]
  }

  datatype Scored = Scored(dist: Option<nat>, index: nat, cand: Candidate, key: Option<Key>)

  function ScoreOf(cands: seq<Candidate>, existing: seq<Stored>, tolerance: int, i: nat): Scored
    requires i < |cands|
  {
    match Nearest(cands[i], existing, tolerance)
    case Some(best) => Scored(Some(best.dist), i, cands[i], Some(best.key))
    case None => Scored(None, i, cands[i], None)
  }

  /** sorted(scored, key=(dist, index)), an unmatched candidate's distance being infinite. */
  function ByDistance(): (Scored, Scored) -> bool {
    (x: Scored, y: Scored) =>
      if x.dist == y.dist then x.index <= y.index
      else x.dist.Some? && (y.dist.None? || x.dist.value < y.dist.value)
  }

  function Scores(cands: seq<Candidate>, existing: seq<Stored>, tolerance: int): seq<Scored> {
    seq(|cands|, i requires 0 <= i < |cands| => ScoreOf(cands, existing, tolerance, i))
  }

  function Ranking(cands: seq<Candidate>, existing: seq<Stored>, tolerance: int): seq<Scored> {
    Sort(Scores(cands, existing, tolerance), ByDistance())
  }

  ghost predicate IsRanking(cands: seq<Candidate>, existing: seq<Stored>, tolerance: int, ranking: seq<Scored>) {
    && |ranking| == |cands|
    && (forall p :: 0 <= p < |ranking| ==>
        ranking[p].index < |cands| && ranking[p] == ScoreOf(cands, existing, tolerance, ranking[p].index))
    && (forall i: nat :: i < |cands| ==> ScoreOf(cands, existing, tolerance, i) in ranking)
    && (forall p, q :: 0 <= p < q < |ranking| ==>
        ByDistance()(ranking[p], ranking[q]) && ranking[p].index != ranking[q].index)
  }

  lemma ScoreHasIndex(cands: seq<Candidate>, existing: seq<Stored>, tolerance: int)
    ensures forall i: nat :: i < |cands| ==> ScoreOf(cands, existing, tolerance, i).index == i
  {
  }

  lemma RankingIsPermutation(cands: seq<Candidate>, existing: seq<Stored>, tolerance: int)
    ensures var ranking := Ranking(cands, existing, tolerance);
            && |ranking| == |cands|
            && (forall p :: 0 <= p < |ranking| ==>
                ranking[p].index < |cands| && ranking[p] == ScoreOf(cands, existing, tolerance, ranking[p].index))
            && (forall i: nat :: i < |cands| ==> ScoreOf(cands, existing, tolerance, i) in ranking)
  {
    var scores, ranking := Scores(cands, existing, tolerance), Ranking(cands, existing, tolerance);
    SortIsPermutation(scores, ByDistance());
    hide ScoreOf, Sort;
    forall p | 0 <= p < |ranking|
      ensures ranking[p].index < |cands| && ranking[p] == ScoreOf(cands, existing, tolerance, ranking[p].index)
    {
      assert ranking[p] in multiset(scores);
      ScoreHasIndex(cands, existing, tolerance);
    }
    forall i: nat | i < |cands| ensures ScoreOf(cands, existing, tolerance, i) in ranking {
      assert scores[i] in multiset(ranking);
    }
  }

  lemma RankingIsRanking(cands: seq<Candidate>, existing: seq<Stored>, tolerance: int)
    ensures IsRanking(cands, existing, tolerance, Ranking(cands, existing, tolerance))
  {
    var scores, ranking := Scores(cands, existing, tolerance), Ranking(cands, existing, tolerance);
    RankingIsPermutation(cands, existing, tolerance);
    SortIsPermutation(scores, ByDistance());
    SortIsSorted(scores, ByDistance());
    assert Distinct(scores) by {
      assert forall i :: 0 <= i < |scores| ==> scores[i].index == i;
    }
    DistinctByBag(scores, ranking);
  }

  lemma PlaceOf(cands: seq<Candidate>, existing: seq<Stored>, tolerance: int, ranking: seq<Scored>,
                i: nat) returns (p: nat)
    requires IsRanking(cands, existing, tolerance, ranking) && i < |cands|
    ensures p < |ranking| && ranking[p].index == i
  {
    assert ScoreOf(cands, existing, tolerance, i) in ranking;
    p :| p < |ranking| && ranking[p] == ScoreOf(cands, existing, tolerance, i);
  }

  /** Contenders for one key are ranked as the claim loop meets them. */
  lemma RankedContenders(cands: seq<Candidate>, existing: seq<Stored>, tolerance: int, ranking: seq<Scored>, p: nat,
                         q: nat)
    requires IsRanking(cands, existing, tolerance, ranking) && p < q < |ranking|
    requires ranking[p].key.Some? && ranking[p].key == ranking[q].key
    ensures var x, y := Nearest(cands[ranking[p].index], existing, tolerance),
        Nearest(cands[ranking[q].index], existing, tolerance);
            && x.Some? && y.Some? && x.value.key == y.value.key
            && Before(x.value.dist, ranking[p].index, y.value.dist, ranking[q].index)
            && ranking[p].index != ranking[q].index
  {
  }

  ghost predicate FirstOfKey(ranking: seq<Scored>, p: nat)
    requires p < |ranking|
  {
    ranking[p].key.Some? && forall q :: 0 <= q < p ==> ranking[q].key != ranking[p].key
  }

  /** In ranking order the first contender of a key is its winner. */
  lemma FirstContenderWins(cands: seq<Candidate>, existing: seq<Stored>, tolerance: int, ranking: seq<Scored>, p: nat)
    requires IsRanking(cands, existing, tolerance, ranking) && p < |ranking|
    ensures Wins(cands, existing, tolerance, ranking[p].index) <==> FirstOfKey(ranking, p)
  {
    var i := ranking[p].index;
    var mine := Nearest(cands[i], existing, tolerance);
    if FirstOfKey(ranking, p) {
      forall j: nat | j < |cands| && j != i ensures Yields(cands, existing, tolerance, j, mine.value, i) {
        var q := PlaceOf(cands, existing, tolerance, ranking, j);
        if ranking[q].key == ranking[p].key {
          RankedContenders(cands, existing, tolerance, ranking, p, q);
        }
      }
    }
    if Wins(cands, existing, tolerance, i) {
      forall q | 0 <= q < p ensures ranking[q].key != ranking[p].key {
        assert Yields(cands, existing, tolerance, ranking[q].index, mine.value, i);
        assert ByDistance()(ranking[q], ranking[p]);
      }
    }
  }

  // ------------------------------------------------------- reconcile_keys

  /** reconcile_keys: the ranking, each winner carrying the key it adopts. */
  ghost function Reconcile(cands: seq<Candidate>, existing: seq<Stored>, tolerance: int): seq<Candidate> {
    var ranking := Ranking(cands, existing, tolerance);
    RankingIsRanking(cands, existing, tolerance);
    seq(|cands|, p requires 0 <= p < |cands| => Adopted(cands, existing, tolerance, ranking[p].index))
  }

  method ReconcileKeys(cands: seq<Candidate>, existing: seq<Stored>, tolerance: int) returns (out: seq<Candidate>)
    ensures out == Reconcile(cands, existing, tolerance)
  {
    var index := IndexRows(existing);
    var scored: seq<Scored> := [];
    for i := 0 to |cands|
      invariant |scored| == i
      invariant forall k :: 0 <= k < i ==> scored[k] == ScoreOf(cands, existing, tolerance, k)
    {
      var c := cands[i];
      var bestKey: Option<Key>, bestDist := None, tolerance;
      if c.isTod && c.tod.Some? {
        bestKey, bestDist := BestRow(if c.habit in index then index[c.habit] else [], c.tod.value, tolerance);
      }
      scored := scored + [Scored(if bestKey.Some? then Some(bestDist) else None, i, c, bestKey)];
    }
    assert scored == Scores(cands, existing, tolerance);
    out := ClaimKeys(cands, existing, tolerance, Sort(scored, ByDistance()));
  }

  /** The inner loop over the stored rows of one habit. */
  method BestRow(rows: seq<(Key, int)>, minute: int, tolerance: int) returns (bestKey: Option<Key>, bestDist: int)
    ensures match NearestOf(rows, minute, tolerance)
            case None => bestKey == None
            case Some(best) => bestKey == Some(best.key) && bestDist == best.dist
  {
    bestKey, bestDist := None, tolerance;
    for m := 0 to |rows|
      invariant match NearestOf(rows[..m], minute, tolerance)
                case None => bestKey == None && bestDist == tolerance
                case Some(best) => bestKey == Some(best.key) && bestDist == best.dist
    {
      assert rows[..m + 1][..m] == rows[..m];
      var dist := Dist(minute, rows[m].1);
      if dist <= bestDist {
        bestKey, bestDist := Some(rows[m].0), dist;
      }
    }
    assert rows[..|rows|] == rows;
  }

  /** The index of stored rows by habit. */
  method IndexRows(existing: seq<Stored>) returns (index: map<Habit, seq<(Key, int)>>)
    ensures forall h :: RowsOf(existing, h) == if h in index then index[h] else []
  {
    index := map[];
    for n := 0 to |existing|
      invariant forall h :: RowsOf(existing[..n], h) == if h in index then index[h] else []
    {
      var row := existing[n];
      assert existing[..n + 1][..n] == existing[..n];
      if row.tod.Some? {
        var sofar := if row.habit in index then index[row.habit] else [];
        index := index[row.habit := sofar + [(row.key, row.tod.value)]];
      }
    }
    assert existing[..|existing|] == existing;
  }

  ghost function Claimed(ranking: seq<Scored>, p: nat): Candidate
    requires p < |ranking|
  {
    if FirstOfKey(ranking, p) then ranking[p].cand.(key := ranking[p].key.value) else ranking[p].cand
  }

  lemma ClaimedIsReconciled(cands: seq<Candidate>, existing: seq<Stored>, tolerance: int, p: nat)
    requires p < |cands|
    ensures |Ranking(cands, existing, tolerance)| == |cands|
    ensures Claimed(Ranking(cands, existing, tolerance), p) == Reconcile(cands, existing, tolerance)[p]
  {
    RankingIsRanking(cands, existing, tolerance);
    FirstContenderWins(cands, existing, tolerance, Ranking(cands, existing, tolerance), p);
  }

  /** The claim loop: the first contender of each key gets it. */
  method ClaimKeys(cands: seq<Candidate>, existing: seq<Stored>, tolerance: int,
                   ranking: seq<Scored>) returns (out: seq<Candidate>)
    requires ranking == Ranking(cands, existing, tolerance)
    ensures out == Reconcile(cands, existing, tolerance)
  {
    SortIsPermutation(Scores(cands, existing, tolerance), ByDistance());
    out := [];
    var claimed: set<Key> := {};
    for p := 0 to |ranking|
      invariant |out| == p
      invariant forall q :: 0 <= q < p ==> out[q] == Claimed(ranking, q)
      invariant forall k :: k in claimed <==> exists q :: 0 <= q < p && ranking[q].key == Some(k)
    {
      var c, key := ranking[p].cand, ranking[p].key;
      if key.Some? && key.value !in claimed {
        claimed := claimed + {key.value};
        out := out + [c.(key := key.value)];
      } else {
        out := out + [c];
      }
    }
    forall p | 0 <= p < |out| ensures out[p] == Reconcile(cands, existing, tolerance)[p] {
      ClaimedIsReconciled(cands, existing, tolerance, p);
    }
  }

  // ---------------------------------------------- what reconcile_keys promises

  ghost predicate Ranked(ranking: seq<Scored>, i: nat) {
    exists p :: 0 <= p < |ranking| && ranking[p].index == i
  }

  /** The ranking lists every candidate index exactly once. */
  lemma RankingListsAll(cands: seq<Candidate>, existing: seq<Stored>, tolerance: int)
    ensures var ranking := Ranking(cands, existing, tolerance);
            && (forall i: nat :: i < |cands| ==> Ranked(ranking, i))
            && (forall p, q :: 0 <= p < q < |ranking| ==> ranking[p].index != ranking[q].index)
  {
    RankingIsRanking(cands, existing, tolerance);
    var ranking := Ranking(cands, existing, tolerance);
    forall i: nat | i < |cands| ensures Ranked(ranking, i) {
      var p := PlaceOf(cands, existing, tolerance, ranking, i);
    }
  }

  /** Every candidate comes out in its ranked place, changed in its key at most. */
  lemma ReconcilePermutes(cands: seq<Candidate>, existing: seq<Stored>, tolerance: int, p: nat)
    requires p < |cands|
    ensures var out, ranking := Reconcile(cands, existing, tolerance), Ranking(cands, existing, tolerance);
            && |out| == |cands| == |ranking| && ranking[p].index < |cands|
            && out[p].(key := cands[ranking[p].index].key) == cands[ranking[p].index]
  {
    RankingIsRanking(cands, existing, tolerance);
    var i := Ranking(cands, existing, tolerance)[p].index;
    assert Reconcile(cands, existing, tolerance)[p] == Adopted(cands, existing, tolerance, i);
  }

  ghost predicate Contests(cands: seq<Candidate>, existing: seq<Stored>, tolerance: int, i: nat, key: Key) {
    i < |cands| && Nearest(cands[i], existing, tolerance).Some?
        && Nearest(cands[i], existing, tolerance).value.key == key
  }

  /** A contested key is adopted by exactly one of its contenders. */
  lemma ContestedKeyHasOneAdopter(cands: seq<Candidate>, existing: seq<Stored>, tolerance: int, key: Key,
                                  i: nat) returns (w: nat)
    requires Contests(cands, existing, tolerance, i, key)
    ensures Contests(cands, existing, tolerance, w, key) && Wins(cands, existing, tolerance, w)
    ensures Adopted(cands, existing, tolerance, w).key == key
    ensures forall j: nat :: Contests(cands, existing, tolerance, j, key) && j != w ==>
              !Wins(cands, existing, tolerance, j) && Adopted(cands, existing, tolerance, j) == cands[j]
  {
    var ranking := Ranking(cands, existing, tolerance);
    RankingIsRanking(cands, existing, tolerance);
    var p := PlaceOf(cands, existing, tolerance, ranking, i);
    p := FirstWith(ranking, p);
    FirstContenderWins(cands, existing, tolerance, ranking, p);
    w := ranking[p].index;
    forall j: nat | Contests(cands, existing, tolerance, j, key) && j != w
      ensures !Wins(cands, existing, tolerance, j) {
      var q := PlaceOf(cands, existing, tolerance, ranking, j);
      FirstContenderWins(cands, existing, tolerance, ranking, q);
      assert ranking[q].key == ranking[p].key;
    }
  }

  lemma FirstWith(ranking: seq<Scored>, p: nat) returns (q: nat)
    requires p < |ranking| && ranking[p].key.Some?
    ensures q <= p && ranking[q].key == ranking[p].key && FirstOfKey(ranking, q)
  {
    q := 0;
    while ranking[q].key != ranking[p].key
      invariant q <= p
      invariant forall r :: 0 <= r < q ==> ranking[r].key != ranking[p].key
      decreases p - q
    {
      q := q + 1;
    }
  }

  /** Only a row of the same habit within tolerance lends its key, and it is one of
      the nearest such rows. */
  lemma AdoptedRowMatches(cands: seq<Candidate>, existing: seq<Stored>, tolerance: int, i: nat)
    requires i < |cands| && Adopted(cands, existing, tolerance, i).key != cands[i].key
    ensures exists row ::
        row in existing && row.key == Adopted(cands, existing, tolerance, i).key && InRange(cands[i], row, tolerance)
              && forall other :: other in existing && InRange(cands[i], other, tolerance) ==>
                   Dist(cands[i].tod.value, row.tod.value) <= Dist(cands[i].tod.value, other.tod.value)
  {
    NearestIsLeast(cands[i], existing, tolerance);
  }

  // ---------------------------------------------------------------- dedupe

  function KeysOf(cands: seq<Candidate>): set<Key> {
    set i | 0 <= i < |cands| :: cands[i].key
  }

  ghost predicate KeysDistinct(cands: seq<Candidate>) {
    forall i, j :: 0 <= i < j < |cands| ==> cands[i].key != cands[j].key
  }

  /** Of the first n candidates with its key, i has most occurrences and is the first such. */
  ghost predicate Kept(cands: seq<Candidate>, i: nat, n: nat)
    requires i < n <= |cands|
  {
    forall j :: 0 <= j < n && cands[j].key == cands[i].key ==>
      cands[j].occurrences < cands[i].occurrences || (cands[j].occurrences == cands[i].occurrences && i <= j)
  }

  ghost predicate IsKept(cands: seq<Candidate>, d: Candidate) {
    exists i: nat :: i < |cands| && cands[i] == d && Kept(cands, i, |cands|)
  }

  ghost predicate Deduped(cands: seq<Candidate>, out: seq<Candidate>) {
    && KeysDistinct(out)
    && (forall d :: d in out ==> IsKept(cands, d))
    && KeysOf(out) == KeysOf(cands)
  }

  /** The dictionary after n candidates: `order` lists its keys as first met, `best`
      holds the position of the candidate kept for each. */
  ghost predicate BestSoFar(cands: seq<Candidate>, n: nat, order: seq<Key>, best: map<Key, nat>)
    requires n <= |cands|
  {
    && Distinct(order) && (forall k :: k in order <==> k in best)
    && (forall k :: k in best ==> best[k] < n && cands[best[k]].key == k && Kept(cands, best[k], n))
    && (forall i :: 0 <= i < n ==> cands[i].key in best)
  }

  method DedupeCandidates(cands: seq<Candidate>) returns (out: seq<Candidate>)
    ensures Deduped(cands, out)
  {
    hide Deduped, Kept;
    var best: map<Key, nat> := map[];
    var order: seq<Key> := [];
    for n := 0 to |cands|
      invariant BestSoFar(cands, n, order, best)
    {
      var c := cands[n];
      BestStep(cands, n, order, best);
      if c.key !in best {
        order := order + [c.key];
        best := best[c.key := n];
      } else if c.occurrences > cands[best[c.key]].occurrences {
        best := best[c.key := n];
      }
    }
    out := [];
    for k := 0 to |order|
      invariant |out| == k
      invariant forall m :: 0 <= m < k ==> best[order[m]] < |cands| && out[m] == cands[best[order[m]]]
    {
      assert order[k] in best;
      out := out + [cands[best[order[k]]]];
    }
    BestIsDeduped(cands, order, best, out);
  }

  lemma BestStep(cands: seq<Candidate>, n: nat, order: seq<Key>, best: map<Key, nat>)
    requires n < |cands| && BestSoFar(cands, n, order, best)
    ensures var c := cands[n];
            if c.key !in best then BestSoFar(cands, n + 1, order + [c.key], best[c.key := n])
            else BestSoFar(cands, n + 1, order,
                           if c.occurrences > cands[best[c.key]].occurrences then best[c.key := n] else best)
  {
    forall k | k in best ensures k != cands[n].key ==> Kept(cands, best[k], n + 1) {
      assert Kept(cands, best[k], n);
    }
  }

  lemma BestIsDeduped(cands: seq<Candidate>, order: seq<Key>, best: map<Key, nat>, out: seq<Candidate>)
    requires BestSoFar(cands, |cands|, order, best)
    requires |out| == |order| && forall m :: 0 <= m < |out| ==>
        order[m] in best && best[order[m]] < |cands| && out[m] == cands[best[order[m]]]
    ensures Deduped(cands, out)
  {
  }

  // ---------------------------------------------------------------- upsert

  const UPSERT_CHUNK := 500

  /** INSERT ... ON CONFLICT (pattern_key) DO UPDATE for one row: a new pattern
      starts as a candidate; a known one keeps what identifies it and its status. */
  function Merged(table: Table, c: Candidate, minedAt: int): Row {
    if c.key in table then
      var row := table[c.key];
      row.(tod := c.tod, occurrences := c.occurrences, metrics := c.metrics, lastSeen := c.lastSeen, minedAt := minedAt,
           firstSeen := if c.firstSeen < row.firstSeen then c.firstSeen else row.firstSeen)
    else
      Row(c.isTod, c.habit, c.tod, c.occurrences, c.metrics, c.firstSeen, c.lastSeen, minedAt, New)
  }

  /** The table after all rows of a duplicate-free list are merged. */
  ghost predicate Upserted(table: Table, cands: seq<Candidate>, minedAt: int, result: Table) {
    && result.Keys == table.Keys + KeysOf(cands)
    && (forall i :: 0 <= i < |cands| ==> result[cands[i].key] == Merged(table, cands[i], minedAt))
    && (forall k :: k in table && k !in KeysOf(cands) ==> result[k] == table[k])
  }

  /** What a merged row says: the candidate's numbers, the earlier of the two first sightings,
      and, if the key was stored, what the row had for the rest. */
  lemma RowSays(table: Table, cands: seq<Candidate>, minedAt: int, result: Table, i: nat)
    requires Upserted(table, cands, minedAt, result) && i < |cands|
    ensures cands[i].key in result
    ensures var c, row := cands[i], result[cands[i].key];
            && row.tod == c.tod && row.occurrences == c.occurrences && row.metrics == c.metrics
            && row.lastSeen == c.lastSeen && row.minedAt == minedAt && row.firstSeen <= c.firstSeen
            && (c.key !in table ==> row.isTod == c.isTod && row.habit == c.habit && row.status == New
                                    && row.firstSeen == c.firstSeen)
            && (c.key in table ==>
                  var was := table[c.key];
                  && row.isTod == was.isTod && row.habit == was.habit && row.status == was.status
                  && row.firstSeen <= was.firstSeen && (row.firstSeen == c.firstSeen || row.firstSeen == was.firstSeen))
  {
    assert cands[i].key in KeysOf(cands);
  }

  lemma UpsertOne(table: Table, front: seq<Candidate>, c: Candidate, minedAt: int, t: Table)
    requires KeysDistinct(front) && Upserted(table, front, minedAt, t) && c.key !in KeysOf(front)
    ensures KeysDistinct(front + [c])
    ensures Upserted(table, front + [c], minedAt, t[c.key := Merged(table, c, minedAt)])
  {
    var all := front + [c];
    forall k ensures k in KeysOf(all) <==> k in KeysOf(front) || k == c.key {
      if k in KeysOf(front) {
        var j :| 0 <= j < |front| && front[j].key == k;
        assert all[j].key == k;
      }
      assert all[|front|].key == c.key;
    }
    forall i | 0 <= i < |front| ensures all[i].key != c.key {
      assert front[i].key in KeysOf(front);
    }
  }

  /** One statement: PostgreSQL refuses to touch a row twice. */
  method ExecuteUpsert(table: Table, chunk: seq<Candidate>, minedAt: int) returns (result: Option<Table>)
    ensures KeysDistinct(chunk) ==> result.Some? && Upserted(table, chunk, minedAt, result.value)
    ensures !KeysDistinct(chunk) ==> result.None?
  {
    var t := table;
    for i := 0 to |chunk|
      invariant KeysDistinct(chunk[..i]) && Upserted(table, chunk[..i], minedAt, t)
    {
      var c := chunk[i];
      if c.key in KeysOf(chunk[..i]) {
        var j :| 0 <= j < i && chunk[..i][j].key == c.key;
        assert chunk[j].key == chunk[i].key;
        return None;
      }
      UpsertOne(table, chunk[..i], c, minedAt, t);
      assert chunk[..i + 1] == chunk[..i] + [c];
      t := t[c.key := Merged(table, c, minedAt)];
    }
    assert chunk[..|chunk|] == chunk;
    return Some(t);
  }

  lemma UpsertConcat(table: Table, xs: seq<Candidate>, ys: seq<Candidate>, minedAt: int, middle: Table, result: Table)
    requires KeysDistinct(xs + ys)
    requires Upserted(table, xs, minedAt, middle) && Upserted(middle, ys, minedAt, result)
    ensures Upserted(table, xs + ys, minedAt, result)
  {
    var all := xs + ys;
    forall k ensures k in KeysOf(all) <==> k in KeysOf(xs) || k in KeysOf(ys) {
      if k in KeysOf(ys) {
        var j :| 0 <= j < |ys| && ys[j].key == k;
        assert all[|xs| + j].key == k;
      }
      if k in KeysOf(xs) {
        var j :| 0 <= j < |xs| && xs[j].key == k;
        assert all[j].key == k;
      }
    }
    forall i | 0 <= i < |all| ensures result[all[i].key] == Merged(table, all[i], minedAt) {
      if i < |xs| {
        assert all[i].key !in KeysOf(ys) by {
          forall j | 0 <= j < |ys| ensures ys[j].key != all[i].key { assert all[|xs| + j] == ys[j]; }
        }
        assert xs[i] == all[i];
      } else {
        assert all[i].key !in KeysOf(xs) by {
          forall j | 0 <= j < |xs| ensures xs[j].key != all[i].key { assert all[j] == xs[j]; }
        }
        assert ys[i - |xs|] == all[i];
      }
    }
  }

  /** The chunked upsert never fails on a deduplicated list, and chunking is not visible. */
  method UpsertPatterns(table: Table, cands: seq<Candidate>, minedAt: int) returns (result: Option<Table>)
    requires KeysDistinct(cands)
    ensures result.Some? && Upserted(table, cands, minedAt, result.value)
  {
    var t, start := table, 0;
    assert cands[..0] == [];
    while start < |cands|
      invariant 0 <= start <= |cands|
      invariant Upserted(table, cands[..start], minedAt, t)
    {
      var end := if start + UPSERT_CHUNK < |cands| then start + UPSERT_CHUNK else |cands|;
      var r := ExecuteUpsert(t, cands[start..end], minedAt);
      assert cands[..start] + cands[start..end] == cands[..end];
      UpsertConcat(table, cands[..start], cands[start..end], minedAt, t, r.value);
      t, start := r.value, end;
    }
    assert cands[..|cands|] == cands;
    return Some(t);
  }

  // ---------------------------------------------------------- a nightly run

  /** `existing` lists the stored time-of-day patterns, in any order. */
  ghost predicate Lists(existing: seq<Stored>, table: Table) {
    && (forall i, j :: 0 <= i < j < |existing| ==> existing[i].key != existing[j].key)
    && (forall s ::
          s in existing
          <==> s.key in table && table[s.key].isTod && s == Stored(s.key, table[s.key].habit, table[s.key].tod))
  }

  /** Keys spell out the pattern they belong to. */
  predicate KeyFits(key: Key, isTod: bool, habit: Habit) {
    isTod == key.TodKey? && (key.TodKey? ==> habit == Habit(key.entity, key.action, key.dayType))
  }

  ghost predicate WellKeyed(table: Table) {
    forall k :: k in table ==> KeyFits(k, table[k].isTod, table[k].habit)
  }

  ghost predicate TodCandidates(tods: seq<Candidate>) {
    forall i :: 0 <= i < |tods| ==> tods[i].isTod && tods[i].tod.Some? && KeyFits(tods[i].key, true, tods[i].habit)
  }

  ghost predicate PairCandidates(pairs: seq<Candidate>) {
    forall i :: 0 <= i < |pairs| ==> !pairs[i].isTod && KeyFits(pairs[i].key, false, pairs[i].habit)
  }

  /** One night: reconcile, dedupe, upsert. */
  ghost predicate NightlyRun(table: Table, existing: seq<Stored>, tods: seq<Candidate>, pairs: seq<Candidate>,
                             tolerance: int, minedAt: int, result: Table) {
    && Lists(existing, table)
    && exists kept :: Deduped(Reconcile(tods, existing, tolerance) + pairs, kept)
        && Upserted(table, kept, minedAt, result)
  }

  method RunMining(table: Table, existing: seq<Stored>, tods: seq<Candidate>, pairs: seq<Candidate>, tolerance: int,
                   minedAt: int) returns (result: Table)
    requires Lists(existing, table)
    ensures NightlyRun(table, existing, tods, pairs, tolerance, minedAt, result)
  {
    var reconciled := ReconcileKeys(tods, existing, tolerance);
    var kept := DedupeCandidates(reconciled + pairs);
    var r := UpsertPatterns(table, kept, minedAt);
    result := r.value;
  }

  // ---------------------------------------------------- identity over nights

  ghost predicate HasRowInRange(c: Candidate, existing: seq<Stored>, tolerance: int) {
    exists row :: row in existing && InRange(c, row, tolerance)
  }

  /** No two candidates have a nearest row in common. */
  ghost predicate NoContest(cands: seq<Candidate>, existing: seq<Stored>, tolerance: int) {
    forall i: nat, j: nat :: i < j < |cands| ==>
      var x, y := Nearest(cands[i], existing, tolerance), Nearest(cands[j], existing, tolerance);
      x.Some? && y.Some? ==> x.value.key != y.value.key
  }

  /** Rows within tolerance of two candidates bring them within twice the tolerance. */
  lemma SharedRowMeansClose(c: Candidate, d: Candidate, row: Stored, tolerance: int)
    requires InRange(c, row, tolerance) && InRange(d, row, tolerance)
    ensures c.habit == d.habit && Dist(c.tod.value, d.tod.value) <= 2 * tolerance
  {
    Triangle(c.tod.value, row.tod.value, d.tod.value);
    DistSymmetric(row.tod.value, d.tod.value);
  }

  /** Candidates for one habit are more than twice the tolerance apart. */
  ghost predicate WellSeparated(cands: seq<Candidate>, tolerance: int) {
    forall i, j ::
      0 <= i < j < |cands| && cands[i].habit == cands[j].habit && cands[i].tod.Some? && cands[j].tod.Some? ==>
      Dist(cands[i].tod.value, cands[j].tod.value) > 2 * tolerance
  }

  ghost predicate ListingKeysDistinct(existing: seq<Stored>) {
    forall i, j :: 0 <= i < j < |existing| ==> existing[i].key != existing[j].key
  }

  lemma SeparatedMeansNoContest(cands: seq<Candidate>, existing: seq<Stored>, tolerance: int)
    requires WellSeparated(cands, tolerance) && ListingKeysDistinct(existing)
    ensures NoContest(cands, existing, tolerance)
  {
    forall i: nat, j: nat | i < j < |cands| && Nearest(cands[i], existing, tolerance).Some?
        && Nearest(cands[j], existing, tolerance).Some?
      ensures Nearest(cands[i], existing, tolerance).value.key != Nearest(cands[j], existing, tolerance).value.key
    {
      var x, y := Nearest(cands[i], existing, tolerance).value, Nearest(cands[j], existing, tolerance).value;
      NearestIsLeast(cands[i], existing, tolerance);
      NearestIsLeast(cands[j], existing, tolerance);
      var r :| r in existing && r.key == x.key && InRange(cands[i], r, tolerance);
      var q :| q in existing && q.key == y.key && InRange(cands[j], q, tolerance);
      if InRange(cands[j], r, tolerance) {
        SharedRowMeansClose(cands[i], cands[j], r, tolerance);
      }
    }
  }

  lemma KeptKeys(table: Table, existing: seq<Stored>, tods: seq<Candidate>, pairs: seq<Candidate>, tolerance: int,
                 minedAt: int, result: Table)
    requires NightlyRun(table, existing, tods, pairs, tolerance, minedAt, result)
    ensures result.Keys == table.Keys + KeysOf(Reconcile(tods, existing, tolerance)) + KeysOf(pairs)
  {
    KeysOfConcat(Reconcile(tods, existing, tolerance), pairs);
  }

  lemma KeysOfConcat(xs: seq<Candidate>, ys: seq<Candidate>)
    ensures KeysOf(xs + ys) == KeysOf(xs) + KeysOf(ys)
  {
    forall k ensures k in KeysOf(xs + ys) <==> k in KeysOf(xs) || k in KeysOf(ys) {
      if k in KeysOf(xs) {
        var j :| 0 <= j < |xs| && xs[j].key == k;
        assert (xs + ys)[j].key == k;
      }
      if k in KeysOf(ys) {
        var j :| 0 <= j < |ys| && ys[j].key == k;
        assert (xs + ys)[|xs| + j].key == k;
      }
    }
  }

  /** c has a row within reach, or its own key is stored already. */
  ghost predicate Anchored(c: Candidate, table: Table, existing: seq<Stored>, pairs: seq<Candidate>, tolerance: int) {
    HasRowInRange(c, existing, tolerance) || c.key in table || c.key in KeysOf(pairs)
  }

  ghost function AdoptedKey(tods: seq<Candidate>, existing: seq<Stored>, tolerance: int, i: nat): Key
    requires i < |tods|
  {
    Adopted(tods, existing, tolerance, i).key
  }

  lemma KeyIsListed(tods: seq<Candidate>, existing: seq<Stored>, tolerance: int, i: nat)
    requires i < |tods|
    ensures AdoptedKey(tods, existing, tolerance, i) in KeysOf(Reconcile(tods, existing, tolerance))
  {
    var p := PlaceInOutput(tods, existing, tolerance, i);
  }

  /** Candidate i wins a stored key, or finds its own key stored. */
  ghost predicate Settles(tods: seq<Candidate>, table: Table, existing: seq<Stored>, pairs: seq<Candidate>,
                          tolerance: int, i: nat)
    requires i < |tods|
  {
    Wins(tods, existing, tolerance, i) || tods[i].key in table || tods[i].key in KeysOf(pairs)
  }

  /** Only a winner takes a stored key; the others keep their own. */
  lemma AdoptsIfItWins(table: Table, tods: seq<Candidate>, existing: seq<Stored>, tolerance: int, i: nat)
    requires Lists(existing, table) && i < |tods|
    ensures if Wins(tods, existing, tolerance, i) then AdoptedKey(tods, existing, tolerance, i) in table
            else AdoptedKey(tods, existing, tolerance, i) == tods[i].key
  {
    NearestIsLeast(tods[i], existing, tolerance);
  }

  /** Whatever was mined: a night adds no time-of-day key exactly when each candidate is
      nearest to a stored pattern of its habit that no better contender takes, or finds
      its own key. */
  lemma NightAddsNoKeyIff(table: Table, existing: seq<Stored>, tods: seq<Candidate>, pairs: seq<Candidate>,
                          tolerance: int, minedAt: int, result: Table)
    requires NightlyRun(table, existing, tods, pairs, tolerance, minedAt, result)
    ensures result.Keys == table.Keys + KeysOf(pairs)
       <==> forall i: nat :: i < |tods| ==> Settles(tods, table, existing, pairs, tolerance, i)
  {
    hide Reconcile, Nearest, Wins, KeysOf;
    KeptKeys(table, existing, tods, pairs, tolerance, minedAt, result);
    forall i: nat | i < |tods|
      ensures AdoptedKey(tods, existing, tolerance, i) in KeysOf(Reconcile(tods, existing, tolerance))
      ensures AdoptedKey(tods, existing, tolerance, i) in table.Keys + KeysOf(pairs)
         <==> Settles(tods, table, existing, pairs, tolerance, i)
    {
      KeyIsListed(tods, existing, tolerance, i);
      AdoptsIfItWins(table, tods, existing, tolerance, i);
    }
    forall k | k in KeysOf(Reconcile(tods, existing, tolerance))
      ensures exists i: nat :: i < |tods| && AdoptedKey(tods, existing, tolerance, i) == k {
      KeyComesFrom(tods, existing, tolerance, k);
      var i: nat :| i < |tods| && Adopted(tods, existing, tolerance, i).key == k;
      assert AdoptedKey(tods, existing, tolerance, i) == k;
    }
  }

  /** Without contest a candidate wins a row iff there is one in range. */
  lemma WinsUnlessAlone(tods: seq<Candidate>, existing: seq<Stored>, tolerance: int, i: nat)
    requires NoContest(tods, existing, tolerance) && i < |tods|
    ensures Wins(tods, existing, tolerance, i) <==> HasRowInRange(tods[i], existing, tolerance)
  {
    NearestIsLeast(tods[i], existing, tolerance);
  }

  /** A drifting habit keeps its row: when candidates of one habit stay more than twice
      the tolerance apart, being within tolerance of a stored pattern is enough to win one. */
  lemma SeparatedNightAddsNoKeyIff(table: Table, existing: seq<Stored>, tods: seq<Candidate>, pairs: seq<Candidate>,
                                   tolerance: int, minedAt: int, result: Table)
    requires NightlyRun(table, existing, tods, pairs, tolerance, minedAt, result) && WellSeparated(tods, tolerance)
    ensures result.Keys == table.Keys + KeysOf(pairs)
       <==> forall i: nat :: i < |tods| ==> Anchored(tods[i], table, existing, pairs, tolerance)
  {
    hide NightlyRun, Wins, NoContest, HasRowInRange, KeysOf, WellSeparated;
    NightListing(table, existing, tods, pairs, tolerance, minedAt, result);
    SeparatedMeansNoContest(tods, existing, tolerance);
    NightAddsNoKeyIff(table, existing, tods, pairs, tolerance, minedAt, result);
    forall i: nat | i < |tods|
      ensures Settles(tods, table, existing, pairs, tolerance, i)
         <==> Anchored(tods[i], table, existing, pairs, tolerance)
    {
      WinsUnlessAlone(tods, existing, tolerance, i);
    }
  }

  lemma NightListing(table: Table, existing: seq<Stored>, tods: seq<Candidate>, pairs: seq<Candidate>, tolerance: int,
                     minedAt: int, result: Table)
    requires NightlyRun(table, existing, tods, pairs, tolerance, minedAt, result)
    ensures Lists(existing, table) && ListingKeysDistinct(existing)
  {
  }

  /** The miner never writes a status: known patterns keep theirs, new ones start
      as candidates, and no pattern disappears. */
  lemma MinerKeepsStatus(table: Table, existing: seq<Stored>, tods: seq<Candidate>, pairs: seq<Candidate>,
                         tolerance: int, minedAt: int, result: Table, k: Key)
    requires NightlyRun(table, existing, tods, pairs, tolerance, minedAt, result)
    ensures k in table ==> k in result && result[k].status == table[k].status && result[k].habit == table[k].habit
    ensures k in result && k !in table ==> result[k].status == New
  {
  }

  /** Clock times of one habit's candidates all differ. */
  ghost predicate TimesDiffer(cands: seq<Candidate>) {
    forall i, j ::
      0 <= i < j < |cands| && cands[i].habit == cands[j].habit && cands[i].tod.Some? && cands[j].tod.Some? ==>
      Dist(cands[i].tod.value, cands[j].tod.value) > 0
  }

  lemma AdoptedFits(table: Table, existing: seq<Stored>, tods: seq<Candidate>, tolerance: int, i: nat)
    requires WellKeyed(table) && Lists(existing, table) && TodCandidates(tods) && i < |tods|
    ensures var r := Adopted(tods, existing, tolerance, i);
            KeyFits(r.key, true, tods[i].habit) && r == tods[i].(key := r.key)
  {
    NearestIsLeast(tods[i], existing, tolerance);
  }

  /** After the night every candidate whose key is not shared has a stored row of its
      habit at its own clock time. */
  lemma RowAfterNight(table: Table, existing: seq<Stored>, tods: seq<Candidate>, pairs: seq<Candidate>,
                      tolerance: int, minedAt: int, result: Table, i: nat)
    requires NightlyRun(table, existing, tods, pairs, tolerance, minedAt, result)
    requires WellKeyed(table) && TodCandidates(tods) && PairCandidates(pairs) && i < |tods|
    requires KeysDistinct(Reconcile(tods, existing, tolerance))
    ensures var k := Adopted(tods, existing, tolerance, i).key;
            k in result && result[k].isTod && result[k].habit == tods[i].habit && result[k].tod == tods[i].tod
  {
    var kept: seq<Candidate> :| Deduped(Reconcile(tods, existing, tolerance) + pairs, kept)
        && Upserted(table, kept, minedAt, result);
    var r, out := Adopted(tods, existing, tolerance, i), Reconcile(tods, existing, tolerance);
    AdoptedFits(table, existing, tods, tolerance, i);
    var p := PlaceInOutput(tods, existing, tolerance, i);
    KeysOfConcat(out, pairs);
    assert r.key in KeysOf(kept);
    var m :| 0 <= m < |kept| && kept[m].key == r.key;
    OnlyCarrier(out, pairs, p, kept[m]);
  }

  lemma PlaceInOutput(tods: seq<Candidate>, existing: seq<Stored>, tolerance: int, i: nat) returns (p: nat)
    requires i < |tods|
    ensures p < |Reconcile(tods, existing, tolerance)|
    ensures Reconcile(tods, existing, tolerance)[p] == Adopted(tods, existing, tolerance, i)
  {
    RankingIsRanking(tods, existing, tolerance);
    p := PlaceOf(tods, existing, tolerance, Ranking(tods, existing, tolerance), i);
  }

  /** A time-of-day key that no other reconciled candidate has survives the dedupe unchanged. */
  lemma OnlyCarrier(out: seq<Candidate>, pairs: seq<Candidate>, p: nat, d: Candidate)
    requires KeysDistinct(out) && PairCandidates(pairs) && p < |out| && out[p].key.TodKey?
    requires IsKept(out + pairs, d) && d.key == out[p].key
    ensures d == out[p]
  {
  }

  lemma OwnRowWins(table: Table, existing: seq<Stored>, cands: seq<Candidate>, tolerance: int, i: nat, k: Key)
    requires tolerance >= 0 && Lists(existing, table) && i < |cands| && cands[i].isTod && cands[i].tod.Some?
    requires k in table && table[k].isTod && table[k].habit == cands[i].habit && table[k].tod == cands[i].tod
    ensures HasRowInRange(cands[i], existing, tolerance)
    ensures Nearest(cands[i], existing, tolerance).Some? && Nearest(cands[i], existing, tolerance).value.dist == 0
  {
    var row := Stored(k, cands[i].habit, cands[i].tod);
    assert row in existing && InRange(cands[i], row, tolerance);
    NearestIsLeast(cands[i], existing, tolerance);
  }

  /** The first night left candidate c a row of its habit at its own clock time. */
  ghost predicate KeptRow(c: Candidate, table: Table) {
    exists k :: k in table && table[k].isTod && table[k].habit == c.habit && table[k].tod == c.tod
  }

  /** A candidate with a row of its own wins it: no other is at distance zero. */
  lemma KeptRowWins(table: Table, existing: seq<Stored>, tods: seq<Candidate>, tolerance: int, i: nat)
    requires tolerance >= 0 && Lists(existing, table) && TodCandidates(tods) && TimesDiffer(tods)
    requires i < |tods| && KeptRow(tods[i], table)
    ensures Wins(tods, existing, tolerance, i)
  {
    var k :| k in table && table[k].isTod && table[k].habit == tods[i].habit && table[k].tod == tods[i].tod;
    OwnRowWins(table, existing, tods, tolerance, i, k);
    var mine := Nearest(tods[i], existing, tolerance).value;
    forall j: nat | j < |tods| && j != i ensures Yields(tods, existing, tolerance, j, mine, i) {
      ZeroDistYields(existing, tods, tolerance, i, j);
    }
  }

  lemma ZeroDistYields(existing: seq<Stored>, cands: seq<Candidate>, tolerance: int, i: nat, j: nat)
    requires TimesDiffer(cands) && ListingKeysDistinct(existing) && i < |cands| && j < |cands| && i != j
    requires Nearest(cands[i], existing, tolerance).Some? && Nearest(cands[i], existing, tolerance).value.dist == 0
    ensures Yields(cands, existing, tolerance, j, Nearest(cands[i], existing, tolerance).value, i)
  {
    hide Dist;
    NearestIsLeast(cands[i], existing, tolerance);
    NearestIsLeast(cands[j], existing, tolerance);
    var x, y := Nearest(cands[i], existing, tolerance).value, Nearest(cands[j], existing, tolerance);
    if y.Some? && y.value.key == x.key && y.value.dist == 0 {
      var r :| r in existing && r.key == x.key && InRange(cands[i], r, tolerance)
          && Dist(cands[i].tod.value, r.tod.value) == x.dist;
      var q :| q in existing && q.key == x.key && InRange(cands[j], q, tolerance)
          && Dist(cands[j].tod.value, q.tod.value) == 0;
      Triangle(cands[i].tod.value, r.tod.value, cands[j].tod.value);
      DistSymmetric(r.tod.value, cands[j].tod.value);
      DistSymmetric(cands[i].tod.value, cands[j].tod.value);
    }
  }

  /** Mining the same candidates a second night adds no key exactly when each wins a row of
      the first night's table or finds its own key there; if their clock times differ, those
      that kept a row of their own do. */
  lemma SecondNightAddsNoKeyIff(table: Table, listing: seq<Stored>, first: Table, listing': seq<Stored>, second: Table,
                                tods: seq<Candidate>, pairs: seq<Candidate>, tolerance: int, night: int, night': int)
    requires NightlyRun(table, listing, tods, pairs, tolerance, night, first)
    requires NightlyRun(first, listing', tods, pairs, tolerance, night', second)
    ensures second.Keys == first.Keys
       <==> forall i: nat :: i < |tods| ==> Wins(tods, listing', tolerance, i) || tods[i].key in first
    ensures tolerance >= 0 && TodCandidates(tods) && TimesDiffer(tods) ==>
              forall i: nat :: i < |tods| && KeptRow(tods[i], first) ==> Wins(tods, listing', tolerance, i)
  {
    hide NightlyRun, Wins, KeysOf, Reconcile, KeptRow, TimesDiffer, TodCandidates;
    KeptKeys(table, listing, tods, pairs, tolerance, night, first);
    assert first.Keys + KeysOf(pairs) == first.Keys;
    NightListing(first, listing', tods, pairs, tolerance, night', second);
    NightAddsNoKeyIff(first, listing', tods, pairs, tolerance, night', second);
    assert forall i: nat :: i < |tods| ==>
        (Settles(tods, first, listing', pairs, tolerance, i) <==>
         Wins(tods, listing', tolerance, i) || tods[i].key in first);
    if tolerance >= 0 && TodCandidates(tods) && TimesDiffer(tods) {
      forall i: nat | i < |tods| && KeptRow(tods[i], first) ensures Wins(tods, listing', tolerance, i) {
        KeptRowWins(first, listing', tods, tolerance, i);
      }
    }
  }

  /** So it adds none if one habit's candidates differ in clock time and the first night's
      keys did not collide. */
  lemma RemineIsStable(table: Table, listing: seq<Stored>, first: Table, listing': seq<Stored>, second: Table,
                       tods: seq<Candidate>, pairs: seq<Candidate>, tolerance: int, night: int, night': int)
    requires tolerance >= 0 && WellKeyed(table) && TodCandidates(tods) && PairCandidates(pairs)
    requires NightlyRun(table, listing, tods, pairs, tolerance, night, first)
    requires NightlyRun(first, listing', tods, pairs, tolerance, night', second)
    requires TimesDiffer(tods) && KeysDistinct(Reconcile(tods, listing, tolerance))
    ensures second.Keys == first.Keys
  {
    hide NightlyRun, Wins, KeysOf, Reconcile, TimesDiffer;
    forall i: nat | i < |tods| ensures KeptRow(tods[i], first) {
      RowAfterNight(table, listing, tods, pairs, tolerance, night, first, i);
    }
    SecondNightAddsNoKeyIff(table, listing, first, listing', second, tods, pairs, tolerance, night, night');
  }

  /** For candidates kept apart: exactly when the first night left one of them with
      neither a row in reach nor its own key. */
  lemma SeparatedSecondNightIff(table: Table, listing: seq<Stored>, first: Table, listing': seq<Stored>, second: Table,
                                tods: seq<Candidate>, pairs: seq<Candidate>, tolerance: int, night: int, night': int)
    requires NightlyRun(table, listing, tods, pairs, tolerance, night, first)
    requires NightlyRun(first, listing', tods, pairs, tolerance, night', second)
    requires WellSeparated(tods, tolerance)
    ensures second.Keys == first.Keys
       <==> forall i: nat :: i < |tods| ==> HasRowInRange(tods[i], listing', tolerance) || tods[i].key in first
  {
    hide NightlyRun, HasRowInRange, WellSeparated, KeysOf, Reconcile;
    KeptKeys(table, listing, tods, pairs, tolerance, night, first);
    assert first.Keys + KeysOf(pairs) == first.Keys;
    SeparatedNightAddsNoKeyIff(first, listing', tods, pairs, tolerance, night', second);
  }

  // ---------------------------------------- why the collision must be excluded

  const BAR := Habit("light.bar", "off", Some("weekday"))
  const NO_METRICS := Metrics(0.0, 0.0, 0.0, None, None, 0, false)

  function BarKey(bucket: int): Key { TodKey("light.bar", "off", Some("weekday"), bucket) }

  function BarAt(minute: int, bucket: int, occurrences: nat): Candidate {
    Candidate(true, BarKey(bucket), BAR, Some(60 * minute), occurrences, NO_METRICS, 0, 0)
  }

  function Drifted(m: Metrics): Candidate { BarAt(300, 10, 4).(metrics := m) }

  const NEWCOMER := BarAt(435, 14, 7)
  const TOL := 60 * 45

  function DriftedTable(metrics: Metrics): Table {
    map[BarKey(14) := Row(true, BAR, Some(60 * 300), 9, metrics, 0, 0, 0, Proposed)]
  }

  lemma FarApart()
    ensures Dist(60 * 300, 60 * 435) == Dist(60 * 435, 60 * 300) == 8100
  {
  }

  /** The drifted habit adopts the old key; the newcomer is born with the same one. */
  lemma BothGetOldKey(metrics: Metrics, m: Metrics, listing: seq<Stored>)
    requires Lists(listing, DriftedTable(metrics))
    ensures Adopted([Drifted(m), NEWCOMER], listing, TOL, 0).key == Adopted([Drifted(m), NEWCOMER], listing, TOL, 1).key
        == BarKey(14)
    ensures Adopted([Drifted(m), NEWCOMER], listing, TOL, 0).occurrences == 4
    ensures Adopted([Drifted(m), NEWCOMER], listing, TOL, 1) == NEWCOMER
  {
    var row := Stored(BarKey(14), BAR, Some(60 * 300));
    FarApart();
    assert row in listing && forall s :: s in listing ==> s == row;
    NearestIsLeast(Drifted(m), listing, TOL);
    NearestIsLeast(NEWCOMER, listing, TOL);
    assert InRange(Drifted(m), row, TOL) && !InRange(NEWCOMER, row, TOL);
    assert Wins([Drifted(m), NEWCOMER], listing, TOL, 0) && !Wins([Drifted(m), NEWCOMER], listing, TOL, 1);
  }

  lemma FirstNightCollides(metrics: Metrics, m: Metrics, listing: seq<Stored>, first: Table)
    requires NightlyRun(DriftedTable(metrics), listing, [Drifted(m), NEWCOMER], [], TOL, 1, first)
    ensures first.Keys == {BarKey(14)}
    ensures first[BarKey(14)].isTod && first[BarKey(14)].habit == BAR && first[BarKey(14)].tod == NEWCOMER.tod
    ensures first[BarKey(14)].metrics == NEWCOMER.metrics
  {
    hide Adopted, Nearest, Wins, Deduped, Upserted, NightlyRun;
    var table, tods := DriftedTable(metrics), [Drifted(m), NEWCOMER];
    NightLists(table, listing, tods, 1, first);
    BothGetOldKey(metrics, m, listing);
    forall k | k in KeysOf(Reconcile(tods, listing, TOL)) ensures k == BarKey(14) {
      KeyComesFrom(tods, listing, TOL, k);
    }
    KeptKeys(table, listing, tods, [], TOL, 1, first);
    var p := PlaceInOutput(tods, listing, TOL, 1);
    var q := PlaceInOutput(tods, listing, TOL, 0);
    BusierSurvives(table, listing, tods, TOL, first, p);
  }

  /** A habit whose stored key names an old bucket (14) has drifted to 5:00; a new
      habit at 7:15 is born with that same key and more occurrences. The dedupe
      drops the old habit's row, so mining the same candidates again adds a key,
      although the candidates are 135 minutes apart and the tolerance is 45. */
  lemma CollisionAddsKey(metrics: Metrics, m: Metrics, listing: seq<Stored>, first: Table, listing': seq<Stored>,
                         second: Table)
    requires NightlyRun(DriftedTable(metrics), listing, [Drifted(m), NEWCOMER], [], TOL, 1, first)
    requires NightlyRun(first, listing', [Drifted(m), NEWCOMER], [], TOL, 2, second)
    ensures WellSeparated([Drifted(m), NEWCOMER], TOL)
    ensures BarKey(10) in second && BarKey(10) !in first
  {
    hide NightlyRun, Reconcile, AdoptedKey, HasRowInRange;
    FarApart();
    FirstNightCollides(metrics, m, listing, first);
    NightLists(first, listing', [Drifted(m), NEWCOMER], 2, second);
    DriftedStandsAlone(m, first, listing');
    KeyIsListed([Drifted(m), NEWCOMER], listing', TOL, 0);
    KeptKeys(first, listing', [Drifted(m), NEWCOMER], [], TOL, 2, second);
  }

  lemma NightLists(table: Table, listing: seq<Stored>, tods: seq<Candidate>, night: int, result: Table)
    requires NightlyRun(table, listing, tods, [], TOL, night, result)
    ensures Lists(listing, table)
  {
  }

  /** The second night nothing stored is within reach of the drifted habit. */
  lemma DriftedStandsAlone(m: Metrics, first: Table, listing: seq<Stored>)
    requires Lists(listing, first) && first.Keys == {BarKey(14)}
    requires first[BarKey(14)].isTod && first[BarKey(14)].habit == BAR && first[BarKey(14)].tod == NEWCOMER.tod
    ensures AdoptedKey([Drifted(m), NEWCOMER], listing, TOL, 0) == BarKey(10)
  {
    FarApart();
    NearestIsLeast(Drifted(m), listing, TOL);
    assert forall s :: s in listing ==> s == Stored(BarKey(14), BAR, NEWCOMER.tod);
    assert Nearest(Drifted(m), listing, TOL).None?;
  }

  lemma KeyComesFrom(tods: seq<Candidate>, existing: seq<Stored>, tolerance: int, k: Key)
    requires k in KeysOf(Reconcile(tods, existing, tolerance))
    ensures exists i: nat :: i < |tods| && Adopted(tods, existing, tolerance, i).key == k
  {
    RankingIsRanking(tods, existing, tolerance);
    var p :| 0 <= p < |tods| && Reconcile(tods, existing, tolerance)[p].key == k;
    assert Adopted(tods, existing, tolerance, Ranking(tods, existing, tolerance)[p].index).key == k;
  }

  lemma BusierSurvives(table: Table, existing: seq<Stored>, tods: seq<Candidate>, tolerance: int, result: Table, p: nat)
    requires NightlyRun(table, existing, tods, [], tolerance, 1, result)
    requires var out := Reconcile(tods, existing, tolerance);
             p < |out| && forall j :: 0 <= j < |out| ==> j == p || out[j].occurrences < out[p].occurrences
    ensures var c := Reconcile(tods, existing, tolerance)[p];
            c.key in result && result[c.key] == Merged(table, c, 1)
  {
    var out := Reconcile(tods, existing, tolerance);
    assert out + [] == out;
    var kept: seq<Candidate> :| Deduped(out + [], kept) && Upserted(table, kept, 1, result);
    assert out[p].key in KeysOf(kept);
    var m :| 0 <= m < |kept| && kept[m].key == out[p].key;
    OnlyBusiest(out, p, kept[m]);
  }

  lemma OnlyBusiest(out: seq<Candidate>, p: nat, d: Candidate)
    requires p < |out| && forall j :: 0 <= j < |out| ==> j == p || out[j].occurrences < out[p].occurrences
    requires IsKept(out, d) && d.key == out[p].key
    ensures d == out[p]
  {
  }

  // --------------------------------------------- why separation must be strict

  /** Mined at 06:00:04 and 07:30:08, stored as 360.1 and 450.1 minutes. */
  const EARLY := Candidate(true, BarKey(12), BAR, Some(21606), 7, NO_METRICS, 0, 0)
  const LATE := Candidate(true, BarKey(15), BAR, Some(27006), 7, NO_METRICS, 0, 0)

  /** One row half way between, at 405.1 minutes. */
  function MiddleTable(metrics: Metrics): Table {
    map[BarKey(13) := Row(true, BAR, Some(24306), 9, metrics, 0, 0, 0, Proposed)]
  }

  lemma BothInReach()
    ensures Dist(21606, 24306) == Dist(27006, 24306) == TOL && Dist(24306, 27006) == TOL
    ensures Dist(21606, 27006) == 2 * TOL
  {
  }

  lemma EarlyWins(metrics: Metrics, listing: seq<Stored>)
    requires Lists(listing, MiddleTable(metrics))
    ensures HasRowInRange(EARLY, listing, TOL) && HasRowInRange(LATE, listing, TOL)
    ensures AdoptedKey([EARLY, LATE], listing, TOL, 1) == BarKey(15)
  {
    hide Dist;
    var row := Stored(BarKey(13), BAR, Some(24306));
    BothInReach();
    assert row in listing && forall s :: s in listing ==> s == row;
    assert InRange(EARLY, row, TOL) && InRange(LATE, row, TOL);
    NearestIsLeast(EARLY, listing, TOL);
    NearestIsLeast(LATE, listing, TOL);
    assert !Yields([EARLY, LATE], listing, TOL, 0, Nearest(LATE, listing, TOL).value, 1);
  }

  /** Exactly twice the tolerance apart, both candidates reach one row; the second of them
      keeps its own key, and the night adds it although a row was in range. */
  lemma MiddleRowAddsKey(metrics: Metrics, listing: seq<Stored>, result: Table)
    requires NightlyRun(MiddleTable(metrics), listing, [EARLY, LATE], [], TOL, 1, result)
    ensures HasRowInRange(EARLY, listing, TOL) && HasRowInRange(LATE, listing, TOL)
    ensures BarKey(15) in result && BarKey(15) !in MiddleTable(metrics)
  {
    EarlyWins(metrics, listing);
    hide Reconcile, AdoptedKey, HasRowInRange;
    KeyIsListed([EARLY, LATE], listing, TOL, 1);
    KeptKeys(MiddleTable(metrics), listing, [EARLY, LATE], [], TOL, 1, result);
  }
}
