/** Proposal groups (src/pae/proposer/grouping.py): eligible patterns bucketed by day
    type or trigger, time-of-day buckets split at wide gaps, and the group keys. */
module ProposalGroups {
  import opened Prelude
  import opened Circle
  import opened CircularMean
  import opened Sorting
  import opened Components
  import opened Splitting
  import opened Bucketing
  import opened Gates
  import PatternKeys

  // --------------------------------------------------------------- the data

  /** Members of a list of groups are stored patterns; `mean` is their circular mean. */
  datatype ProposalGroup =
    | TodGroup(dayType: string, patterns: seq<Pattern>, mean: int)
    | PairGroup(trigger: string, triggerState: string, patterns: seq<Pattern>)

  /** "tod:{day_type}:{bucket}:{digest}" and "pair:{trigger}:{state}:{digest}"; the digest
      of the sorted (entity, action) pairs stands for the set of them. */
  datatype GroupKey =
    | TodGroupKey(dayType: string, bucket: int, digest: set<(string, string)>)
    | PairGroupKey(trigger: string, triggerState: string, digest: set<(string, string)>)

  function EntityActions(patterns: seq<Pattern>): set<(string, string)> {
    set i | 0 <= i < |patterns| :: (patterns[i].entity, patterns[i].action)
  }

  function KeyOf(g: ProposalGroup): GroupKey {
    match g
    case TodGroup(dayType, patterns, mean) => TodGroupKey(dayType, mean / HALF_HOUR, EntityActions(patterns))
    case PairGroup(trigger, state, patterns) => PairGroupKey(trigger, state, EntityActions(patterns))
  }

  /** `p.day_type or ""` */
  function DayName(p: Pattern): string {
    if p.kind.TimeOfDay? && p.kind.dayType.Some? then p.kind.dayType.value else ""
  }

  function Clock(p: Pattern): int { if p.kind.TimeOfDay? then p.kind.tod else 0 }

  function TriggerOf(p: Pattern): (string, string) {
    if p.kind.EventPair? then (p.kind.trigger, p.kind.triggerState) else ("", "")
  }

  function Clocks(patterns: seq<Pattern>): (ts: seq<int>)
    ensures |ts| == |patterns| && forall i :: 0 <= i < |ts| ==> ts[i] == Clock(patterns[i])
  {
    if patterns == [] then [] else [Clock(patterns[0])] + Clocks(patterns[1..])
  }

  function Members(groups: seq<ProposalGroup>): (lists: seq<seq<Pattern>>)
    ensures |lists| == |groups| && forall i :: 0 <= i < |groups| ==> lists[i] == groups[i].patterns
  {
    seq(|groups|, i requires 0 <= i < |groups| => groups[i].patterns)
  }

  // ------------------------------------------------------------- specification

  /** Two patterns that belong in one proposal: same day type at clock times at most
      window apart, or the same trigger. */
  ghost function Near(window: int): (Pattern, Pattern) -> bool {
    (p: Pattern, q: Pattern) =>
      || (p.kind.TimeOfDay? && q.kind.TimeOfDay? && DayName(p) == DayName(q) && Abs(Clock(p) - Clock(q)) <= window)
      || (p.kind.EventPair? && q.kind.EventPair? && TriggerOf(p) == TriggerOf(q))
  }

  ghost predicate AllTod(patterns: seq<Pattern>, dayType: string) {
    forall i :: 0 <= i < |patterns| ==> patterns[i].kind.TimeOfDay? && DayName(patterns[i]) == dayType
  }

  ghost predicate AllPair(patterns: seq<Pattern>, trigger: (string, string)) {
    forall i :: 0 <= i < |patterns| ==> patterns[i].kind.EventPair? && TriggerOf(patterns[i]) == trigger
  }

  /** The fields of a group describe its members, which stand in clock order. */
  ghost predicate Describes(g: ProposalGroup, meanOf: seq<int> -> int) {
    match g
    case TodGroup(dayType, ps, mean) => AllTod(ps, dayType) && Increasing(Clocks(ps)) && mean == meanOf(Clocks(ps))
    case PairGroup(trigger, state, ps) => AllPair(ps, (trigger, state))
  }

  ghost predicate AllDescribe(groups: seq<ProposalGroup>, meanOf: seq<int> -> int) {
    forall i :: 0 <= i < |groups| ==> Describes(groups[i], meanOf)
  }

  function Groupable(eligible: seq<Pattern>): seq<Pattern> {
    Filter((p: Pattern) => !p.kind.OtherKind?, eligible)
  }

  ghost predicate AreGroups(eligible: seq<Pattern>, window: int, meanOf: seq<int> -> int, groups: seq<ProposalGroup>) {
    Components.Grouping(Near(window), Groupable(eligible), Members(groups)) && AllDescribe(groups, meanOf)
  }

  // --------------------------------------------------------------- string order

  /** Python's order on strings. */
  predicate LexLe(a: string, b: string) {
    a == [] || (b != [] && if a[0] == b[0] then LexLe(a[1..], b[1..]) else a[0] < b[0])
  }

  lemma {:induction false} LexTotal(a: string, b: string)
    ensures LexLe(a, b) || LexLe(b, a)
  {
    if a != [] && b != [] {
      LexTotal(a[1..], b[1..]);
    }
  }

  lemma {:induction false} LexAntisymmetric(a: string, b: string)
    ensures LexLe(a, b) && LexLe(b, a) ==> a == b
  {
    if a != [] && b != [] {
      LexAntisymmetric(a[1..], b[1..]);
      assert a == [a[0]] + a[1..] && b == [b[0]] + b[1..];
    }
  }

  lemma {:induction false} LexTransitive(a: string, b: string, c: string)
    ensures LexLe(a, b) && LexLe(b, c) ==> LexLe(a, c)
  {
    if a != [] && b != [] && c != [] {
      LexTransitive(a[1..], b[1..], c[1..]);
    }
  }

  predicate PairLe(a: string, x: string, b: string, y: string) {
    if a == b then LexLe(x, y) else LexLe(a, b)
  }

  lemma PairLeTotal(a: string, x: string, b: string, y: string)
    ensures PairLe(a, x, b, y) || PairLe(b, y, a, x)
  {
    LexTotal(a, b);
    LexTotal(x, y);
  }

  lemma PairLeTransitive(a: string, x: string, b: string, y: string, c: string, z: string)
    ensures PairLe(a, x, b, y) && PairLe(b, y, c, z) ==> PairLe(a, x, c, z)
  {
    LexTransitive(a, b, c);
    LexTransitive(x, y, z);
    LexAntisymmetric(a, b);
  }

  /** key=lambda p: (p.tod_minutes, p.entity_id, p.action) */
  function ByClock(): (Pattern, Pattern) -> bool {
    (p: Pattern, q: Pattern) =>
      Clock(p) < Clock(q) || (Clock(p) == Clock(q) && PairLe(p.entity, p.action, q.entity, q.action))
  }

  lemma ByClockIsOrder()
    ensures TotalPreorder(ByClock())
  {
    hide PairLe;
    forall p, q ensures ByClock()(p, q) || ByClock()(q, p) {
      PairLeTotal(p.entity, p.action, q.entity, q.action);
    }
    forall p, q, r | ByClock()(p, q) && ByClock()(q, r) ensures ByClock()(p, r) {
      PairLeTransitive(p.entity, p.action, q.entity, q.action, r.entity, r.action);
    }
  }

  function ByName(): (string, string) -> bool {
    (a: string, b: string) => LexLe(a, b)
  }

  function ByTrigger(): ((string, string), (string, string)) -> bool {
    (a: (string, string), b: (string, string)) => PairLe(a.0, a.1, b.0, b.1)
  }

  // --------------------------------------------------------- one day type's groups

  /** _close_tod */
  function CloseTod(dayType: string, cluster: seq<Pattern>, meanOf: seq<int> -> int): ProposalGroup {
    TodGroup(dayType, cluster, meanOf(Clocks(cluster)))
  }

  ghost predicate Closed(dayType: string, runs: seq<seq<Pattern>>, meanOf: seq<int> -> int,
                         groups: seq<ProposalGroup>) {
    |groups| == |runs| && forall i :: 0 <= i < |runs| ==> groups[i] == CloseTod(dayType, runs[i], meanOf)
  }

  lemma NothingClosed(dayType: string, meanOf: seq<int> -> int)
    ensures Members([]) == [] && Closed(dayType, [], meanOf, [])
  {
  }

  lemma MembersClose(dayType: string, groups: seq<ProposalGroup>, cluster: seq<Pattern>, meanOf: seq<int> -> int)
    requires Closed(dayType, Members(groups), meanOf, groups)
    ensures var all := groups + [CloseTod(dayType, cluster, meanOf)];
            Members(all) == Members(groups) + [cluster] && Closed(dayType, Members(all), meanOf, all)
  {
  }

  /** The loop over one day type's members in clock order. */
  method SplitDay(dayType: string, members: seq<Pattern>, window: int,
                  meanOf: seq<int> -> int) returns (groups: seq<ProposalGroup>)
    requires members != []
    ensures SplitOf(Clocks(members), window, members, Members(groups))
    ensures Closed(dayType, Members(groups), meanOf, groups)
  {
    hide Runs, Closed, Members, CloseTod;
    ghost var ts := Clocks(members);
    ghost var cut: seq<nat>, runs := [0], [[members[0]]];
    var cluster := [members[0]];
    groups := [];
    NothingClosed(dayType, meanOf);
    FirstRun(ts, window, members);
    for k := 1 to |members|
      invariant cluster != [] && cluster[|cluster| - 1] == members[k - 1]
      invariant runs == Members(groups) + [cluster] && Runs(ts, window, members, k, cut, runs)
      invariant Closed(dayType, Members(groups), meanOf, groups)
    {
      var p := members[k];
      if Clock(p) - Clock(cluster[|cluster| - 1]) > window {
        ExtendByCut(ts, window, members, k, cut, runs);
        MembersClose(dayType, groups, cluster, meanOf);
        groups := groups + [CloseTod(dayType, cluster, meanOf)];
        cluster := [];
        runs, cut := runs + [[p]], cut + [k];
        assert cluster + [p] == [p] && runs == Members(groups) + [[p]];
      } else {
        ExtendLastRun(ts, window, members, k, cut, runs);
        runs := runs[|runs| - 1 := cluster + [p]];
        assert runs == Members(groups) + [cluster + [p]];
      }
      cluster := cluster + [p];
    }
    MembersClose(dayType, groups, cluster, meanOf);
    groups := groups + [CloseTod(dayType, cluster, meanOf)];
  }

  /** Clock order and cutting at wide gaps give the groups of one day type. */
  ghost predicate DaySplit(dayType: string, order: seq<Pattern>, window: int, meanOf: seq<int> -> int,
                           groups: seq<ProposalGroup>) {
    && order != [] && Distinct(order) && AllTod(order, dayType) && Increasing(Clocks(order))
    && SplitOf(Clocks(order), window, order, Members(groups)) && Closed(dayType, Members(groups), meanOf, groups)
  }

  lemma NearGap(window: int, p: Pattern, q: Pattern)
    requires p.kind.TimeOfDay? && Near(window)(p, q)
    ensures Clock(q) - Clock(p) <= window && Clock(p) - Clock(q) <= window
  {
  }

  lemma DaySteps(dayType: string, order: seq<Pattern>, window: int, meanOf: seq<int> -> int,
                 groups: seq<ProposalGroup>, i: nat, j: nat)
    requires DaySplit(dayType, order, window, meanOf, groups) && i < |order| && j < |order|
    requires Near(window)(order[i], order[j])
    ensures Together(Members(groups), order[i], order[j])
  {
    hide Members, Closed, Runs, Near, Distinct, Increasing;
    var ts := Clocks(order);
    var cut :| Runs(ts, window, order, |order|, cut, Members(groups));
    NearGap(window, order[i], order[j]);
    if i <= j {
      CloseTogether(ts, window, order, cut, Members(groups), i, j);
    } else {
      CloseTogether(ts, window, order, cut, Members(groups), j, i);
    }
  }

  lemma DayHops(dayType: string, order: seq<Pattern>, window: int, meanOf: seq<int> -> int,
                groups: seq<ProposalGroup>, c: nat, k: nat)
    requires DaySplit(dayType, order, window, meanOf, groups) && c < |groups| && 0 < k < |Members(groups)[c]|
    ensures Hop(Near(window), Members(groups)[c], k)
    ensures Clock(Members(groups)[c][k - 1]) <= Clock(Members(groups)[c][k])
  {
    hide Closed, Runs, Distinct;
    var ts, runs := Clocks(order), Members(groups);
    var cut :| Runs(ts, window, order, |order|, cut, runs);
    var i := RunSteps(ts, window, order, cut, runs, c, k);
    assert ts[i - 1] <= ts[i];
    assert order[i - 1].kind.TimeOfDay? && order[i].kind.TimeOfDay?;
  }

  lemma {:induction false} StepsIncrease(ts: seq<int>, i: nat, j: nat)
    requires forall k: nat :: k + 1 < |ts| ==> Ascends(ts, k)
    requires i <= j < |ts|
    ensures ts[i] <= ts[j]
    decreases j - i
  {
    if i < j {
      StepsIncrease(ts, i, j - 1);
      assert Ascends(ts, j - 1);
    }
  }

  ghost predicate Ascends(ts: seq<int>, k: nat)
    requires k + 1 < |ts|
  {
    ts[k] <= ts[k + 1]
  }

  lemma PartIsTod(dayType: string, order: seq<Pattern>, run: seq<Pattern>)
    requires AllTod(order, dayType) && Components.Within(run, order)
    ensures AllTod(run, dayType)
  {
    forall i | 0 <= i < |run| ensures run[i].kind.TimeOfDay? && DayName(run[i]) == dayType {
      assert run[i] in order;
    }
  }

  lemma RunIncreases(dayType: string, order: seq<Pattern>, window: int, meanOf: seq<int> -> int,
                     groups: seq<ProposalGroup>, c: nat)
    requires DaySplit(dayType, order, window, meanOf, groups) && c < |groups|
    ensures Increasing(Clocks(groups[c].patterns))
  {
    hide DaySplit, Hop;
    var ts := Clocks(groups[c].patterns);
    forall k: nat | k + 1 < |ts| ensures Ascends(ts, k) {
      DayHops(dayType, order, window, meanOf, groups, c, k + 1);
    }
    forall i, j | 0 <= i < j < |ts| ensures ts[i] <= ts[j] {
      StepsIncrease(ts, i, j);
    }
  }

  lemma DayDescribes(dayType: string, order: seq<Pattern>, window: int, meanOf: seq<int> -> int,
                     groups: seq<ProposalGroup>)
    requires DaySplit(dayType, order, window, meanOf, groups) && Partition(Members(groups), order)
    ensures AllDescribe(groups, meanOf)
  {
    hide Increasing, AllTod, Clocks, SplitOf, Distinct;
    forall c | 0 <= c < |groups| ensures Describes(groups[c], meanOf) {
      assert Components.Within(Members(groups)[c], order);
      PartIsTod(dayType, order, groups[c].patterns);
      RunIncreases(dayType, order, window, meanOf, groups, c);
      assert groups[c] == CloseTod(dayType, Members(groups)[c], meanOf);
    }
  }

  lemma DayGroups(dayType: string, order: seq<Pattern>, window: int, meanOf: seq<int> -> int,
                  groups: seq<ProposalGroup>)
    requires DaySplit(dayType, order, window, meanOf, groups)
    ensures Components.Grouping(Near(window), order, Members(groups)) && AllDescribe(groups, meanOf)
  {
    hide Near, DaySplit, Members, AllDescribe;
    var runs := Members(groups);
    DayPartition(dayType, order, window, meanOf, groups);
    forall p, q | p in order && q in order && Near(window)(p, q) ensures Together(runs, p, q) {
      var i: nat :| i < |order| && order[i] == p;
      var j: nat :| j < |order| && order[j] == q;
      DaySteps(dayType, order, window, meanOf, groups, i, j);
    }
    forall c, k | 0 <= c < |runs| && 0 < k < |runs[c]| ensures Hop(Near(window), runs[c], k) {
      DayHops(dayType, order, window, meanOf, groups, c, k);
    }
    DayDescribes(dayType, order, window, meanOf, groups);
  }

  lemma DayPartition(dayType: string, order: seq<Pattern>, window: int, meanOf: seq<int> -> int,
                     groups: seq<ProposalGroup>)
    requires DaySplit(dayType, order, window, meanOf, groups)
    ensures Partition(Members(groups), order) && |Members(groups)| == |groups|
  {
    var cut :| Runs(Clocks(order), window, order, |order|, cut, Members(groups));
    RunsPartition(Clocks(order), window, order, cut, Members(groups));
  }

  // -------------------------------------------------------------- all buckets

  ghost predicate Grouped(window: int, meanOf: seq<int> -> int, xs: seq<Pattern>, groups: seq<ProposalGroup>) {
    Components.Grouping(Near(window), xs, Members(groups)) && AllDescribe(groups, meanOf)
  }

  lemma JoinGroups(window: int, meanOf: seq<int> -> int, xs: seq<Pattern>, groups: seq<ProposalGroup>,
                   ys: seq<Pattern>, more: seq<ProposalGroup>)
    requires Grouped(window, meanOf, xs, groups) && Grouped(window, meanOf, ys, more) && Apart(Near(window), xs, ys)
    ensures Grouped(window, meanOf, xs + ys, groups + more)
  {
    hide Near, Describes, Apart;
    JoinGroupings(Near(window), xs, Members(groups), ys, Members(more));
    assert Members(groups + more) == Members(groups) + Members(more);
  }

  /** done holds the members of the first i buckets. */
  ghost predicate DoneUpTo<T(!new), K(!new)>(xs: seq<T>, keyOf: T -> K, names: seq<K>, i: nat, done: seq<T>)
    requires i <= |names|
  {
    forall x :: x in done <==> x in xs && keyOf(x) in names[..i]
  }

  lemma ExtendDone<T(!new), K(!new)>(xs: seq<T>, keyOf: T -> K, names: seq<K>, i: nat, done: seq<T>, members: seq<T>)
    requires Distinct(names) && i < |names| && DoneUpTo(xs, keyOf, names, i, done)
    requires forall x :: x in members <==> x in xs && keyOf(x) == names[i]
    ensures DoneUpTo(xs, keyOf, names, i + 1, done + members)
    ensures forall x, y :: x in done && y in members ==> keyOf(x) != keyOf(y)
  {
  }

  /** The listing of keys in order: every bucket once. */
  lemma SortedKeys<T(!new), K(!new)>(xs: seq<T>, keyOf: T -> K, keys: seq<K>, buckets: map<K, seq<T>>,
                     le: (K, K) -> bool)
    requires Buckets(xs, keyOf, keys, buckets)
    ensures var names := Sort(keys, le);
            Distinct(names) && (forall k :: k in names <==> k in buckets) && (forall x :: x in xs ==> keyOf(x) in names)
  {
    SortedNames(keys, le);
  }

  lemma AllDone<T(!new), K(!new)>(xs: seq<T>, keyOf: T -> K, names: seq<K>, done: seq<T>)
    requires DoneUpTo(xs, keyOf, names, |names|, done) && forall x :: x in xs ==> keyOf(x) in names
    ensures forall x :: x in done <==> x in xs
  {
  }

  lemma NoGroups(window: int, meanOf: seq<int> -> int)
    ensures Grouped(window, meanOf, [], [])
  {
  }

  /** One bucket of time-of-day patterns, sorted and split, joins the groups so far. */
  lemma TodStep(window: int, meanOf: seq<int> -> int, bucket: seq<Pattern>, dayType: string,
                more: seq<ProposalGroup>)
    requires Distinct(bucket) && bucket != [] && AllTod(bucket, dayType)
    requires var order := Sort(bucket, ByClock());
             order != [] ==>
               SplitOf(Clocks(order), window, order, Members(more)) && Closed(dayType, Members(more), meanOf, more)
    ensures var order := Sort(bucket, ByClock());
            && order != [] && (forall p :: p in order <==> p in bucket) && Grouped(window, meanOf, order, more)
  {
    hide ByClock, Near, SplitOf, Closed, Members, Describes, Components.Grouping;
    var order := Sort(bucket, ByClock());
    SortIsPermutation(bucket, ByClock());
    DistinctByBag(bucket, order);
    ByClockIsOrder();
    SortIsSorted(bucket, ByClock());
    forall p ensures p in order <==> p in bucket {
      assert p in multiset(order) <==> p in multiset(bucket);
    }
    forall i | 0 <= i < |order| ensures order[i].kind.TimeOfDay? && DayName(order[i]) == dayType {
      assert order[i] in bucket;
    }
    ClocksIncrease(order);
    DayGroups(dayType, order, window, meanOf, more);
  }

  lemma ClocksIncrease(order: seq<Pattern>)
    requires Sorted(order, ByClock())
    ensures Increasing(Clocks(order))
  {
  }

  lemma DifferentDaysApart(window: int, xs: seq<Pattern>, ys: seq<Pattern>)
    requires forall p :: p in xs || p in ys ==> p.kind.TimeOfDay?
    requires forall p, q :: p in xs && q in ys ==> DayName(p) != DayName(q)
    ensures Apart(Near(window), xs, ys)
  {
  }

  /** One day type: sorted by clock, then split. */
  method GroupDay(dayType: string, bucket: seq<Pattern>, window: int, meanOf: seq<int> -> int)
    returns (members: seq<Pattern>, groups: seq<ProposalGroup>)
    requires Distinct(bucket) && bucket != [] && AllTod(bucket, dayType)
    ensures (forall p :: p in members <==> p in bucket) && Grouped(window, meanOf, members, groups)
  {
    hide Grouped, ByClock, SplitOf, Closed, Members;
    members := Sort(bucket, ByClock());
    SortIsPermutation(bucket, ByClock());
    groups := SplitDay(dayType, members, window, meanOf);
    TodStep(window, meanOf, bucket, dayType, groups);
  }

  method GroupTods(tods: seq<Pattern>, window: int, meanOf: seq<int> -> int) returns (groups: seq<ProposalGroup>)
    requires Distinct(tods) && forall p :: p in tods ==> p.kind.TimeOfDay?
    ensures Grouped(window, meanOf, tods, groups)
  {
    hide Grouped, LexLe, Near, Buckets, DoneUpTo, Sort;
    var keys, byDay := BucketBy(tods, DayName);
    var names := Sort(keys, ByName());
    SortedKeys(tods, DayName, keys, byDay, ByName());
    groups := [];
    ghost var done: seq<Pattern> := [];
    NoGroups(window, meanOf);
    NothingDone(tods, DayName, names);
    for i := 0 to |names|
      invariant Grouped(window, meanOf, done, groups)
      invariant DoneUpTo(tods, DayName, names, i, done)
    {
      BucketFacts(tods, DayName, keys, byDay, names[i]);
      var members, more := GroupDay(names[i], byDay[names[i]], window, meanOf);
      ExtendDone(tods, DayName, names, i, done, members);
      DoneAreMembers(tods, DayName, names, i, done);
      DifferentDaysApart(window, done, members);
      JoinGroups(window, meanOf, done, groups, members, more);
      groups := groups + more;
      done := done + members;
    }
    AllDone(tods, DayName, names, done);
    RelistGroups(window, meanOf, done, tods, groups);
  }

  lemma NothingDone<T(!new), K(!new)>(xs: seq<T>, keyOf: T -> K, names: seq<K>)
    ensures DoneUpTo(xs, keyOf, names, 0, [])
  {
  }

  lemma DoneAreMembers<T(!new), K(!new)>(xs: seq<T>, keyOf: T -> K, names: seq<K>, i: nat, done: seq<T>)
    requires i <= |names| && DoneUpTo(xs, keyOf, names, i, done)
    ensures forall x :: x in done ==> x in xs
  {
  }

  lemma RelistGroups(window: int, meanOf: seq<int> -> int, xs: seq<Pattern>, ys: seq<Pattern>,
                     groups: seq<ProposalGroup>)
    requires Grouped(window, meanOf, xs, groups) && forall p :: p in xs <==> p in ys
    ensures Grouped(window, meanOf, ys, groups)
  {
  }

  lemma DifferentTriggersApart(window: int, xs: seq<Pattern>, ys: seq<Pattern>)
    requires forall p :: p in xs || p in ys ==> p.kind.EventPair?
    requires forall p, q :: p in xs && q in ys ==> TriggerOf(p) != TriggerOf(q)
    ensures Apart(Near(window), xs, ys)
  {
  }

  lemma PairStep(window: int, meanOf: seq<int> -> int, bucket: seq<Pattern>, trigger: (string, string))
    requires bucket != [] && Distinct(bucket) && AllPair(bucket, trigger)
    ensures Grouped(window, meanOf, bucket, [PairGroup(trigger.0, trigger.1, bucket)])
  {
    OneCluster(Near(window), bucket);
    assert Members([PairGroup(trigger.0, trigger.1, bucket)]) == [bucket];
  }

  method GroupPairs(pairs: seq<Pattern>, window: int, meanOf: seq<int> -> int) returns (groups: seq<ProposalGroup>)
    requires Distinct(pairs) && forall p :: p in pairs ==> p.kind.EventPair?
    ensures Grouped(window, meanOf, pairs, groups)
  {
    hide Grouped, LexLe, Near, Buckets, DoneUpTo;
    var keys, byTrigger := BucketBy(pairs, TriggerOf);
    var names := Sort(keys, ByTrigger());
    SortedKeys(pairs, TriggerOf, keys, byTrigger, ByTrigger());
    groups := [];
    ghost var done: seq<Pattern> := [];
    NoGroups(window, meanOf);
    NothingDone(pairs, TriggerOf, names);
    for i := 0 to |names|
      invariant Grouped(window, meanOf, done, groups)
      invariant DoneUpTo(pairs, TriggerOf, names, i, done)
    {
      BucketFacts(pairs, TriggerOf, keys, byTrigger, names[i]);
      var members := byTrigger[names[i]];
      var g := PairGroup(names[i].0, names[i].1, members);
      PairStep(window, meanOf, members, names[i]);
      ExtendDone(pairs, TriggerOf, names, i, done, members);
      DoneAreMembers(pairs, TriggerOf, names, i, done);
      DifferentTriggersApart(window, done, members);
      JoinGroups(window, meanOf, done, groups, members, [g]);
      groups := groups + [g];
      done := done + members;
    }
    AllDone(pairs, TriggerOf, names, done);
    RelistGroups(window, meanOf, done, pairs, groups);
  }

  /** build_groups */
  method BuildGroups(eligible: seq<Pattern>, window: int, meanOf: seq<int> -> int) returns (groups: seq<ProposalGroup>)
    requires Distinct(eligible)
    ensures AreGroups(eligible, window, meanOf, groups)
  {
    hide Near, Grouped;
    var tods := Filter((p: Pattern) => p.kind.TimeOfDay?, eligible);
    var pairs := Filter((p: Pattern) => p.kind.EventPair?, eligible);
    TodsAndPairs(eligible);
    var todGroups := GroupTods(tods, window, meanOf);
    var pairGroups := GroupPairs(pairs, window, meanOf);
    KindsApart(window, tods, pairs);
    JoinGroups(window, meanOf, tods, todGroups, pairs, pairGroups);
    groups := todGroups + pairGroups;
    RelistGroups(window, meanOf, tods + pairs, Groupable(eligible), groups);
    GroupedAreGroups(eligible, window, meanOf, groups);
  }

  lemma GroupedAreGroups(eligible: seq<Pattern>, window: int, meanOf: seq<int> -> int, groups: seq<ProposalGroup>)
    requires Grouped(window, meanOf, Groupable(eligible), groups)
    ensures AreGroups(eligible, window, meanOf, groups)
  {
  }

  lemma KindsApart(window: int, tods: seq<Pattern>, pairs: seq<Pattern>)
    requires forall p :: p in tods ==> p.kind.TimeOfDay?
    requires forall p :: p in pairs ==> p.kind.EventPair?
    ensures Apart(Near(window), tods, pairs)
  {
  }

  lemma TodsAndPairs(eligible: seq<Pattern>)
    requires Distinct(eligible)
    ensures var tods, pairs := Filter((p: Pattern) => p.kind.TimeOfDay?, eligible),
        Filter((p: Pattern) => p.kind.EventPair?, eligible);
            && Distinct(tods) && Distinct(pairs)
            && (forall p :: p in tods ==> p.kind.TimeOfDay?) && (forall p :: p in pairs ==> p.kind.EventPair?)
            && (forall p :: p in tods + pairs <==> p in Groupable(eligible))
            && (forall p :: p in Groupable(eligible) <==> p in eligible && !p.kind.OtherKind?)
  {
    FilterDistinct((p: Pattern) => p.kind.TimeOfDay?, eligible);
    FilterDistinct((p: Pattern) => p.kind.EventPair?, eligible);
    forall p
      ensures p in Filter((p: Pattern) => p.kind.TimeOfDay?, eligible) <==> p in eligible && p.kind.TimeOfDay?
      ensures p in Filter((p: Pattern) => p.kind.EventPair?, eligible) <==> p in eligible && p.kind.EventPair?
      ensures p in Groupable(eligible) <==> p in eligible && !p.kind.OtherKind?
    {
      FilterMembers((p: Pattern) => p.kind.TimeOfDay?, eligible, p);
      FilterMembers((p: Pattern) => p.kind.EventPair?, eligible, p);
      FilterMembers((p: Pattern) => !p.kind.OtherKind?, eligible, p);
    }
  }

  // ------------------------------------------------ what the groups are

  lemma NearIsSymmetric(window: int)
    ensures Symmetric(Near(window))
  {
  }

  /** The groups are the connected components of "close enough to propose together". */
  lemma GroupsAreComponents(eligible: seq<Pattern>, window: int, meanOf: seq<int> -> int, groups: seq<ProposalGroup>)
    requires AreGroups(eligible, window, meanOf, groups)
    ensures AreComponents(Near(window), Groupable(eligible), Members(groups))
  {
    NearIsSymmetric(window);
    StepsGiveComponents(Near(window), Groupable(eligible), Members(groups));
  }

  lemma InBoth(groups: seq<ProposalGroup>, xs: seq<Pattern>, c: nat, d: nat, p: Pattern)
    requires Partition(Members(groups), xs) && c < |groups| && d < |groups|
    ensures p in groups[c].patterns && p in groups[d].patterns ==> c == d
  {
  }

  /** Members of different groups are too far apart to be proposed together. */
  lemma GroupsAreFarApart(eligible: seq<Pattern>, window: int, meanOf: seq<int> -> int, groups: seq<ProposalGroup>,
                          c: nat, d: nat, p: Pattern, q: Pattern)
    requires AreGroups(eligible, window, meanOf, groups) && c < |groups| && d < |groups| && c != d
    requires p in groups[c].patterns && q in groups[d].patterns
    ensures !Near(window)(p, q)
  {
  }

  /** Inside a time-of-day group, each clock time follows the last by at most window. */
  lemma NeighboursAreClose(eligible: seq<Pattern>, window: int, meanOf: seq<int> -> int, groups: seq<ProposalGroup>,
                           c: nat, k: nat)
    requires AreGroups(eligible, window, meanOf, groups) && c < |groups| && groups[c].TodGroup?
    requires 0 < k < |groups[c].patterns|
    ensures 0 <= Clock(groups[c].patterns[k]) - Clock(groups[c].patterns[k - 1]) <= window
  {
    var ps := groups[c].patterns;
    assert Hop(Near(window), Members(groups)[c], k) && Describes(groups[c], meanOf);
    assert Clocks(ps)[k - 1] <= Clocks(ps)[k];
  }

  lemma GroupableMembers(eligible: seq<Pattern>, p: Pattern)
    ensures p in Groupable(eligible) <==> p in eligible && !p.kind.OtherKind?
  {
    FilterMembers((p: Pattern) => !p.kind.OtherKind?, eligible, p);
  }

  /** A member is an eligible pattern of its group's kind, day type or trigger. */
  lemma MemberKinds(eligible: seq<Pattern>, window: int, meanOf: seq<int> -> int, groups: seq<ProposalGroup>, c: nat,
                    p: Pattern)
    requires AreGroups(eligible, window, meanOf, groups) && c < |groups| && p in groups[c].patterns
    ensures p in eligible && !p.kind.OtherKind?
    ensures groups[c].TodGroup? ==> p.kind.TimeOfDay? && DayName(p) == groups[c].dayType
    ensures groups[c].PairGroup? ==> p.kind.EventPair? && TriggerOf(p) == (groups[c].trigger, groups[c].triggerState)
  {
    assert Within(Members(groups)[c], Groupable(eligible)) && Describes(groups[c], meanOf);
    GroupableMembers(eligible, p);
    var i :| 0 <= i < |groups[c].patterns| && groups[c].patterns[i] == p;
  }

  /** The day type a pattern is grouped under. */
  predicate OnDayType(p: Pattern, dayType: string) {
    p.kind.TimeOfDay? && (p.kind.dayType == Some(dayType) || (p.kind.dayType == None && dayType == ""))
  }

  /** Proposed together: by day type and clock time, or by trigger entity and state. */
  lemma NearMeans(window: int, p: Pattern, q: Pattern)
    ensures Near(window)(p, q) <==>
              || (p.kind.EventPair? && p.kind == q.kind)
              || ((exists d :: OnDayType(p, d) && OnDayType(q, d))
                  && p.kind.tod - q.kind.tod <= window && q.kind.tod - p.kind.tod <= window)
  {
    if p.kind.TimeOfDay? && q.kind.TimeOfDay? {
      assert OnDayType(p, DayName(p)) && OnDayType(q, DayName(q));
      assert forall d :: (OnDayType(p, d) ==> d == DayName(p)) && (OnDayType(q, d) ==> d == DayName(q));
    } else if p.kind.EventPair? && q.kind.EventPair? {
      assert TriggerOf(p).0 == p.kind.trigger && TriggerOf(p).1 == p.kind.triggerState;
      assert TriggerOf(q).0 == q.kind.trigger && TriggerOf(q).1 == q.kind.triggerState;
    }
  }

  /** The clock times a group averages. */
  ghost predicate TimesOf(ps: seq<Pattern>, ts: seq<int>) {
    |ts| == |ps| && forall i :: 0 <= i < |ps| ==> ps[i].kind.TimeOfDay? && ts[i] == ps[i].kind.tod
  }

  /** What a group says of its members. */
  lemma GroupSays(eligible: seq<Pattern>, window: int, meanOf: seq<int> -> int, groups: seq<ProposalGroup>, c: nat)
    requires AreGroups(eligible, window, meanOf, groups) && c < |groups|
    ensures groups[c].TodGroup? ==>
              exists ts :: TimesOf(groups[c].patterns, ts) && groups[c].mean == meanOf(ts)
    ensures forall p :: p in groups[c].patterns ==>
              if groups[c].TodGroup? then OnDayType(p, groups[c].dayType)
              else p.kind == EventPair(groups[c].trigger, groups[c].triggerState)
  {
    var g := groups[c];
    forall p | p in g.patterns
      ensures if g.TodGroup? then OnDayType(p, g.dayType) else p.kind == EventPair(g.trigger, g.triggerState)
    {
      MemberKinds(eligible, window, meanOf, groups, c, p);
    }
    assert Describes(g, meanOf);
    assert g.TodGroup? ==> TimesOf(g.patterns, Clocks(g.patterns));
  }

  // ----------------------------------------------------- when keys collide

  ghost predicate GroupKeysDistinct(groups: seq<ProposalGroup>) {
    forall i, j :: 0 <= i < j < |groups| ==> KeyOf(groups[i]) != KeyOf(groups[j])
  }

  /** Two groups of one day type that act on the same entities in the same way. */
  ghost predicate Twins(g: ProposalGroup, h: ProposalGroup) {
    g.TodGroup? && h.TodGroup? && g.dayType == h.dayType && EntityActions(g.patterns) == EntityActions(h.patterns)
  }

  ghost predicate HasTwins(groups: seq<ProposalGroup>) {
    exists c, d :: 0 <= c < d < |groups| && Twins(groups[c], groups[d])
  }

  /** Two groups of a night share a key iff they are twins whose means fall in one half
      hour; pair groups never do. */
  lemma KeysCollideIff(eligible: seq<Pattern>, window: int, meanOf: seq<int> -> int, groups: seq<ProposalGroup>,
                       c: nat, d: nat)
    requires AreGroups(eligible, window, meanOf, groups) && c < |groups| && d < |groups| && c != d
    ensures KeyOf(groups[c]) == KeyOf(groups[d])
       <==> Twins(groups[c], groups[d]) && groups[c].mean / HALF_HOUR == groups[d].mean / HALF_HOUR
  {
    var p, q := FirstMember(groups, Groupable(eligible), c), FirstMember(groups, Groupable(eligible), d);
    MemberKinds(eligible, window, meanOf, groups, c, p);
    MemberKinds(eligible, window, meanOf, groups, d, q);
    GroupsAreFarApart(eligible, window, meanOf, groups, c, d, p, q);
  }

  ghost function FirstMember(groups: seq<ProposalGroup>, xs: seq<Pattern>, c: nat): (p: Pattern)
    requires Partition(Members(groups), xs) && c < |groups|
    ensures p in groups[c].patterns
  {
    assert Members(groups)[c] != [];
    groups[c].patterns[0]
  }

  /** The same groups with another way of averaging clock times. */
  ghost function Averaged(groups: seq<ProposalGroup>, meanOf: seq<int> -> int): (gs: seq<ProposalGroup>)
    ensures |gs| == |groups|
  {
    seq(|groups|, i requires 0 <= i < |groups| =>
      if groups[i].TodGroup? then groups[i].(mean := meanOf(Clocks(groups[i].patterns))) else groups[i])
  }

  lemma AveragedAreGroups(eligible: seq<Pattern>, window: int, meanOf: seq<int> -> int, groups: seq<ProposalGroup>,
                          other: seq<int> -> int)
    requires AreGroups(eligible, window, meanOf, groups)
    ensures AreGroups(eligible, window, other, Averaged(groups, other))
  {
    assert Members(Averaged(groups, other)) == Members(groups);
    forall i | 0 <= i < |groups| ensures Describes(Averaged(groups, other)[i], other) {
      assert Describes(groups[i], meanOf);
    }
  }

  /** However clock times are averaged, a night's group keys differ: exactly when no two
      of its groups are twins. */
  lemma KeysAreDistinctIff(eligible: seq<Pattern>, window: int, meanOf: seq<int> -> int, groups: seq<ProposalGroup>)
    requires AreGroups(eligible, window, meanOf, groups)
    ensures (forall f: seq<int> -> int :: GroupKeysDistinct(Averaged(groups, f))) <==> !HasTwins(groups)
  {
    hide AreGroups, EntityActions;
    forall f: seq<int> -> int, c, d | 0 <= c < d < |groups|
      ensures KeyOf(Averaged(groups, f)[c]) == KeyOf(Averaged(groups, f)[d]) ==> Twins(groups[c], groups[d])
    {
      AveragedAreGroups(eligible, window, meanOf, groups, f);
      KeysCollideIff(eligible, window, f, Averaged(groups, f), c, d);
    }
    if c, d :| 0 <= c < d < |groups| && Twins(groups[c], groups[d]) {
      var noon := (ts: seq<int>) => 0;
      assert KeyOf(Averaged(groups, noon)[c]) == KeyOf(Averaged(groups, noon)[d]);
    }
  }

  // ------------------------------------------------ which windows are wide enough

  /** What the patterns table guarantees of the patterns read: unique keys, and clock
      times in whole tenths of a minute. */
  ghost predicate AsStored(eligible: seq<Pattern>) {
    && (forall i, j :: 0 <= i < j < |eligible| ==> eligible[i].key != eligible[j].key)
    && (forall p :: p in eligible ==> Clock(p) % TENTH == 0)
  }

  /** Every time-of-day group lies inside the day and spans less than half of it. */
  ghost predicate ShortGroups(groups: seq<ProposalGroup>) {
    forall i :: 0 <= i < |groups| && groups[i].TodGroup? ==> ShortTimes(Clocks(groups[i].patterns))
  }

  predicate ShortTimes(ts: seq<int>) {
    ts != [] ==> 0 <= ts[0] && ts[|ts| - 1] < DAY && 2 * (ts[|ts| - 1] - ts[0]) < DAY
  }

  /** Then its mean lies between the first and the last clock time it averages. */
  lemma MeanInside(ts: seq<int>, meanOf: seq<int> -> int)
    requires IsCircularMean(meanOf) && Increasing(ts) && ShortTimes(ts) && ts != []
    ensures ts[0] <= meanOf(ts) <= ts[|ts| - 1]
  {
    hide IsCircularMean;
    var first, last := ts[0], ts[|ts| - 1];
    forall i | 0 <= i < |ts| ensures Forward(first, ts[i]) == ts[i] - first <= last - first {
    }
    MeanOfShortArc(meanOf, ts, first, last);
  }

  lemma StepAround(ts: seq<int>, m: int) returns (k: nat, k2: nat)
    requires ts != [] && ts[0] <= m <= ts[|ts| - 1]
    ensures k <= k2 <= k + 1 && k2 < |ts| && ts[k] <= m <= ts[k2]
  {
    k := 0;
    while k + 1 < |ts| && ts[k + 1] <= m
      invariant k < |ts| && ts[k] <= m
    {
      k := k + 1;
    }
    k2 := if k + 1 < |ts| then k + 1 else k;
  }

  /** Means of two groups of one day type are further apart than the window. */
  lemma MeansFarApart(eligible: seq<Pattern>, window: int, meanOf: seq<int> -> int, groups: seq<ProposalGroup>, c: nat,
                      d: nat)
    requires AreGroups(eligible, window, meanOf, groups) && AsStored(eligible) && window >= 0
    requires IsCircularMean(meanOf) && ShortGroups(groups) && c < |groups| && d < |groups| && c != d
    requires groups[c].TodGroup? && groups[d].TodGroup? && groups[c].dayType == groups[d].dayType
    ensures Abs(groups[c].mean - groups[d].mean) > window - window % TENTH + TENTH - 1
  {
    hide AreGroups, AsStored, IsCircularMean;
    GroupMean(eligible, window, meanOf, groups, c);
    GroupMean(eligible, window, meanOf, groups, d);
    var i, i2 := StepAround(Clocks(groups[c].patterns), groups[c].mean);
    var j, j2 := StepAround(Clocks(groups[d].patterns), groups[d].mean);
    ShortHop(eligible, window, meanOf, groups, c, i, i2);
    ShortHop(eligible, window, meanOf, groups, d, j, j2);
    TodFarApart(eligible, window, meanOf, groups, c, d, i, j);
    TodFarApart(eligible, window, meanOf, groups, c, d, i, j2);
    TodFarApart(eligible, window, meanOf, groups, c, d, i2, j);
    TodFarApart(eligible, window, meanOf, groups, c, d, i2, j2);
  }

  lemma GroupMean(eligible: seq<Pattern>, window: int, meanOf: seq<int> -> int, groups: seq<ProposalGroup>, c: nat)
    requires AreGroups(eligible, window, meanOf, groups) && IsCircularMean(meanOf) && ShortGroups(groups)
    requires c < |groups| && groups[c].TodGroup?
    ensures var ts := Clocks(groups[c].patterns); ts != [] && ts[0] <= groups[c].mean <= ts[|ts| - 1]
  {
    hide IsCircularMean;
    var p := FirstMember(groups, Groupable(eligible), c);
    assert Describes(groups[c], meanOf);
    MeanInside(Clocks(groups[c].patterns), meanOf);
  }

  lemma ShortHop(eligible: seq<Pattern>, window: int, meanOf: seq<int> -> int, groups: seq<ProposalGroup>, c: nat,
                 i: nat, i2: nat)
    requires AreGroups(eligible, window, meanOf, groups) && window >= 0
    requires c < |groups| && groups[c].TodGroup? && i <= i2 <= i + 1 && i2 < |groups[c].patterns|
    ensures Clock(groups[c].patterns[i2]) - Clock(groups[c].patterns[i]) <= window
  {
    if i2 == i + 1 {
      NeighboursAreClose(eligible, window, meanOf, groups, c, i2);
    }
  }

  lemma TodFarApart(eligible: seq<Pattern>, window: int, meanOf: seq<int> -> int, groups: seq<ProposalGroup>, c: nat,
                    d: nat, i: nat, j: nat)
    requires AreGroups(eligible, window, meanOf, groups) && AsStored(eligible) && window >= 0
    requires c < |groups| && d < |groups| && c != d && i < |groups[c].patterns| && j < |groups[d].patterns|
    requires groups[c].TodGroup? && groups[d].TodGroup? && groups[c].dayType == groups[d].dayType
    ensures Abs(Clock(groups[c].patterns[i]) - Clock(groups[d].patterns[j])) > window - window % TENTH + TENTH - 1
  {
    hide AreGroups;
    var p, q := groups[c].patterns[i], groups[d].patterns[j];
    MemberKinds(eligible, window, meanOf, groups, c, p);
    MemberKinds(eligible, window, meanOf, groups, d, q);
    GroupsAreFarApart(eligible, window, meanOf, groups, c, d, p, q);
    TenthsApart(Clock(p), Clock(q), window);
  }

  lemma TenthsApart(a: int, b: int, window: int)
    requires a % TENTH == 0 && b % TENTH == 0 && Abs(a - b) > window >= 0
    ensures Abs(a - b) > window - window % TENTH + TENTH - 1
  {
  }

  /** Whatever is eligible, the keys of a night without half-day groups differ. */
  ghost predicate NeverCollides(window: int, meanOf: seq<int> -> int) {
    forall eligible: seq<Pattern>, groups: seq<ProposalGroup> ::
      AsStored(eligible) && AreGroups(eligible, window, meanOf, groups) && ShortGroups(groups) ==>
          GroupKeysDistinct(groups)
  }

  /** With the circular mean, keys never collide exactly when the window, in tenths of a
      minute, is at least one tenth short of the key's half hour. */
  lemma NeverCollidesIff(window: int, meanOf: seq<int> -> int)
    requires IsCircularMean(meanOf)
    ensures NeverCollides(window, meanOf) <==> window >= HALF_HOUR - TENTH
  {
    hide AreGroups, AsStored, ShortGroups, EntityActions, IsCircularMean;
    if window >= HALF_HOUR - TENTH {
      forall eligible: seq<Pattern>, groups: seq<ProposalGroup>, c, d
        | AsStored(eligible) && AreGroups(eligible, window, meanOf, groups) && ShortGroups(groups)
            && 0 <= c < d < |groups|
        ensures KeyOf(groups[c]) != KeyOf(groups[d])
      {
        KeysCollideIff(eligible, window, meanOf, groups, c, d);
        if Twins(groups[c], groups[d]) {
          MeansFarApart(eligible, window, meanOf, groups, c, d);
        }
      }
    } else {
      var eligible, groups := SameHabitCollides(window, meanOf);
    }
  }

  // ------------------------------------------------ independence of order

  lemma SameMembersSameBag<T(!new)>(xs: seq<T>, ys: seq<T>)
    requires Distinct(xs) && Distinct(ys) && forall x :: x in xs <==> x in ys
    ensures multiset(xs) == multiset(ys)
  {
    forall x ensures multiset(xs)[x] == multiset(ys)[x] {
      DistinctMeansOnce(xs, x);
      DistinctMeansOnce(ys, x);
      assert x in multiset(xs) <==> x in xs;
      assert x in multiset(ys) <==> x in ys;
    }
  }

  lemma {:induction false} ClockCount(xs: seq<Pattern>, t: int)
    ensures multiset(Clocks(xs))[t] == |Having(xs, Clock, t)|
  {
    if xs != [] {
      assert Clocks(xs) == [Clock(xs[0])] + Clocks(xs[1..]);
      ClockCount(xs[1..], t);
    }
  }

  lemma HavingSameSize<T, K>(xs: seq<T>, ys: seq<T>, keyOf: T -> K, k: K)
    requires multiset(xs) == multiset(ys)
    ensures |Having(xs, keyOf, k)| == |Having(ys, keyOf, k)|
  {
    FilterKeepsBag(x => keyOf(x) == k, xs, ys);
    SameBagSameLength(Having(xs, keyOf, k), Having(ys, keyOf, k));
  }

  lemma ClocksBag(xs: seq<Pattern>, ys: seq<Pattern>)
    requires multiset(xs) == multiset(ys)
    ensures multiset(Clocks(xs)) == multiset(Clocks(ys))
  {
    hide Clocks, Having;
    forall t: int ensures multiset(Clocks(xs))[t] == multiset(Clocks(ys))[t] {
      ClockCount(xs, t);
      ClockCount(ys, t);
      HavingSameSize(xs, ys, Clock, t);
    }
  }

  ghost predicate SameMembers(xs: seq<Pattern>, ys: seq<Pattern>) {
    forall p :: p in xs <==> p in ys
  }

  lemma SameClocks(xs: seq<Pattern>, ys: seq<Pattern>)
    requires Distinct(xs) && Distinct(ys) && SameMembers(xs, ys)
    requires Increasing(Clocks(xs)) && Increasing(Clocks(ys))
    ensures Clocks(xs) == Clocks(ys)
  {
    SameMembersSameBag(xs, ys);
    ClocksBag(xs, ys);
    var le := (a: int, b: int) => a <= b;
    assert Sorted(Clocks(xs), le) && Sorted(Clocks(ys), le);
    assert TotalPreorder(le);
    assert Antisymmetric(le);
    SortedIsUnique(Clocks(xs), Clocks(ys), le);
  }

  lemma SameActions(xs: seq<Pattern>, ys: seq<Pattern>)
    requires SameMembers(xs, ys)
    ensures EntityActions(xs) <= EntityActions(ys)
  {
    forall e | e in EntityActions(xs) ensures e in EntityActions(ys) {
      var i :| 0 <= i < |xs| && (xs[i].entity, xs[i].action) == e;
      assert xs[i] in ys;
      var j :| 0 <= j < |ys| && ys[j] == xs[i];
    }
  }

  lemma SameKey(g: ProposalGroup, h: ProposalGroup, meanOf: seq<int> -> int)
    requires Describes(g, meanOf) && Describes(h, meanOf) && g.patterns != []
    requires Distinct(g.patterns) && Distinct(h.patterns) && SameMembers(g.patterns, h.patterns)
    ensures KeyOf(g) == KeyOf(h)
  {
    SameActions(g.patterns, h.patterns);
    SameActions(h.patterns, g.patterns);
    var p := g.patterns[0];
    assert p in h.patterns;
    if g.TodGroup? && h.TodGroup? {
      SameClocks(g.patterns, h.patterns);
    }
  }

  /** Every group of one listing is a group, with the same key, of any other listing. */
  lemma GroupsIgnoreOrder(xs: seq<Pattern>, ys: seq<Pattern>, window: int, meanOf: seq<int> -> int,
                          groups: seq<ProposalGroup>, others: seq<ProposalGroup>, c: nat) returns (d: nat)
    requires AreGroups(xs, window, meanOf, groups) && AreGroups(ys, window, meanOf, others)
    requires SameMembers(xs, ys) && c < |groups|
    ensures d < |others| && SameMembers(groups[c].patterns, others[d].patterns) && KeyOf(groups[c]) == KeyOf(others[d])
  {
    hide Near, Components.StepsStay, Strung, Linked, Describes;
    var p := groups[c].patterns[0];
    assert p in Members(groups)[c] && Within(Members(groups)[c], Groupable(xs));
    GroupableMembers(xs, p);
    GroupableMembers(ys, p);
    assert Listed(Members(others), p);
    d :| 0 <= d < |others| && p in Members(others)[d];
    forall q ensures q in groups[c].patterns <==> q in others[d].patterns {
      MemberMoves(xs, ys, window, meanOf, groups, others, c, d, p, q);
      MemberMoves(ys, xs, window, meanOf, others, groups, d, c, p, q);
    }
    assert Distinct(Members(groups)[c]) && Distinct(Members(others)[d]);
    SameKey(groups[c], others[d], meanOf);
  }

  lemma MemberMoves(xs: seq<Pattern>, ys: seq<Pattern>, window: int, meanOf: seq<int> -> int,
                    groups: seq<ProposalGroup>, others: seq<ProposalGroup>, c: nat, d: nat, p: Pattern, q: Pattern)
    requires AreGroups(xs, window, meanOf, groups) && AreGroups(ys, window, meanOf, others) && SameMembers(xs, ys)
    requires c < |groups| && d < |others| && p in groups[c].patterns && p in others[d].patterns
    ensures q in groups[c].patterns ==> q in others[d].patterns
  {
    if q in groups[c].patterns {
      assert Within(Members(groups)[c], Groupable(xs));
      assert Together(Members(groups), p, q);
      GroupsAreComponents(xs, window, meanOf, groups);
      GroupsAreComponents(ys, window, meanOf, others);
      forall z ensures z in Groupable(xs) <==> z in Groupable(ys) {
        GroupableMembers(xs, z);
        GroupableMembers(ys, z);
      }
      ComponentsAgree(Near(window), Groupable(xs), Members(groups), Near(window), Groupable(ys), Members(others), p, q);
      var e :| 0 <= e < |others| && p in Members(others)[e] && q in Members(others)[e];
      InBoth(others, Groupable(ys), d, e, p);
    }
  }

  // --------------------------------------------------------- a colliding night

  /** One lamp's pattern; `bucket` is the half hour its key was born in. */
  function Lamp(tod: int, bucket: int): Pattern {
    Pattern(PatternKeys.TodKey("light.lamp", "on", Some("weekday"), bucket),
            TimeOfDay(Some("weekday"), tod, Some(60.0), Some(1.0)),
            "light.lamp", "on", false, PatternKeys.New, 20, 1.0, 1.0, 6.0, 20)
  }

  function Alone(p: Pattern): ProposalGroup { TodGroup("weekday", [p], Clock(p)) }

  lemma AloneDescribes(tod: int, bucket: int, meanOf: seq<int> -> int)
    requires IsCircularMean(meanOf) && 0 <= tod < DAY
    ensures Describes(Alone(Lamp(tod, bucket)), meanOf) && ShortTimes(Clocks(Alone(Lamp(tod, bucket)).patterns))
    ensures KeyOf(Alone(Lamp(tod, bucket))) == TodGroupKey("weekday", tod / HALF_HOUR, {("light.lamp", "on")})
  {
    hide IsCircularMean;
    var g := Alone(Lamp(tod, bucket));
    assert Clocks(g.patterns) == [tod];
    MeanOfOne(meanOf, tod);
    assert g.patterns[0].entity == "light.lamp" && g.patterns[0].action == "on";
  }

  lemma TwoAlone(p: Pattern, q: Pattern, window: int)
    requires p != q && p.kind.TimeOfDay? && q.kind.TimeOfDay? && Abs(Clock(p) - Clock(q)) > window
    ensures Components.Grouping(Near(window), Groupable([p, q]), Members([Alone(p), Alone(q)]))
  {
    var xs, lists := [p, q], Members([Alone(p), Alone(q)]);
    AllPicked((x: Pattern) => !x.kind.OtherKind?, xs);
    assert lists == [[p], [q]];
    assert !Near(window)(p, q) && !Near(window)(q, p);
    TwoSingletons(Near(window), p, q);
  }

  lemma LampsAreStored(tod: int)
    requires tod % TENTH == 0
    ensures AsStored([Lamp(0, 0), Lamp(tod, 1)])
  {
  }

  /** The first tenth of a minute past the window. */
  function JustOutside(window: int): int { if window < 0 then 0 else window - window % TENTH + TENTH }

  lemma OutsideTime(window: int)
    requires window < HALF_HOUR - TENTH
    ensures window < JustOutside(window) && 0 <= JustOutside(window) < HALF_HOUR && JustOutside(window) % TENTH == 0
  {
  }

  /** For every narrower window: one lamp with a pattern at midnight, and one that drifted
      there from the next half hour, stand just more than the window apart. */
  lemma SameHabitCollides(window: int, meanOf: seq<int> -> int)
    returns (eligible: seq<Pattern>, groups: seq<ProposalGroup>)
    requires IsCircularMean(meanOf) && window < HALF_HOUR - TENTH
    ensures AsStored(eligible) && AreGroups(eligible, window, meanOf, groups) && ShortGroups(groups)
    ensures !GroupKeysDistinct(groups)
  {
    hide Components.Grouping, AsStored, Describes, Near, KeyOf, ShortTimes, Clocks, Groupable, IsCircularMean,
        JustOutside;
    var tod := JustOutside(window);
    OutsideTime(window);
    var p, q := Lamp(0, 0), Lamp(tod, 1);
    eligible, groups := [p, q], [Alone(p), Alone(q)];
    AloneDescribes(0, 0, meanOf);
    AloneDescribes(tod, 1, meanOf);
    TwoAlone(p, q, window);
    LampsAreStored(tod);
    assert KeyOf(groups[0]) == KeyOf(groups[1]);
  }
}
