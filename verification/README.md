# Predictive Automation Engine: a verified model

The engine watches a Home Assistant house, mines habits every night, drafts
automations for them with a language model, and scores the drafts in the shadow
of what people really do before an operator approves one. This project models
that pipeline and three small stateful components beside it, and proves what
they are for.

| file | models |
|---|---|
| `Prelude`, `Sorting`, `Bucketing` | shared: filters and sizes, Python's stable `sorted`, dictionaries of lists |
| `Circle`, `CircularMean`, `Dials` | times of day on the 24-hour circle, their mean, and that such a mean exists |
| `Components`, `Splitting` | connected components of a relation; cutting a list at wide gaps |
| `Clusters` | `cluster_minutes` |
| `PairMiner`, `TodMiner` | the event-pair scan and the time-of-day miner |
| `PairReport`, `HabitReport` | what their patterns say, in terms of the events |
| `Separation` | which miner settings keep one night's clock times apart |
| `PatternKeys`, `MiningRuns` | key reconciliation, dedupe and upsert of the patterns table; one whole mining run |
| `Gates`, `Grouping`, `Schema`, `Proposer` | eligibility, proposal groups, validation, the drafting loop |
| `Commits`, `ProposeRuns` | which nights can fail on the unique index; one whole proposing run |
| `Schedules` | suspected schedules from the events to the proposer |
| `Lifecycle`, `Interleaving`, `Ownership` | the two-table state machine, with atomic steps and with statements interleaved |
| `Shadow`, `Fires`, `Coverage`, `ShadowRuns` | scoring of one day; when automations fire; bounds on the score; the runs that fill the results table |
| `RowSlider` | two automations that trigger each other |
| `ContextCache`, `BatchWriter` | the TTL cache and the batch buffer |

Clock times are whole seconds (stored tenths of a minute are multiples of six),
days have 86400 of them. Pattern keys and group keys are datatypes; the digest
in a group key is the set of (entity, action) pairs it is computed from. Tables
are maps, each module keeping the columns it needs, and each SQL UPDATE is one
guarded map update. The circular mean is any function that returns the second in
which the direction of the vector sum lies; directions are known by the sign of
the turn from one to another. The deviation, sun times, holidays and the model's replies are
parameters, so every theorem holds for whatever they return. Loops are methods
proved against a specification, and the objects whose fields change
(`ContextCache.Cache`, `BatchWriter.Writer`, `Lifecycle.Store`) are classes.

## Where the code and its own words differ

* `src/pae/shadow/service.py:6-11` says coverage stays in [0, 1]. It does not:
  `Coverage.CoverageCanExceedOne` and `Coverage.PairCoverageCanExceedOne` give
  scores of one match out of no events. `Coverage.CoverageAtMostOneIff` says
  exactly when it does.
* `src/pae/proposer/service.py:259-265` says the guarded revive protects an
  operator's rejection. It protects the proposal; its patterns are marked
  "proposed" all the same (`Interleaving.RejectionRacesMarking`, and
  `Ownership.CoveredThroughoutIff` for exactly which runs), and the sweep a few
  lines later has no guard (`Interleaving.SweepUndoesRejection`).
* `src/pae/miner/service.py:67-72` presents reconciliation as keeping one row per
  habit. A fresh key can still collide with an adopted one and displace it
  (`PatternKeys.CollisionAddsKey`), and with the configured gap of exactly twice
  the tolerance, rounding can put two clusters' stored times within reach of one
  row (`Separation.ConfiguredGapFails`, `PatternKeys.MiddleRowAddsKey`).
* `src/pae/proposer/gates.py:3-5` puts an entity with any suspected schedule off
  limits. The dedupe can drop the suspicion first, when a busier cluster is born
  under the key a drifted schedule adopts (`Schedules.CollisionHidesSchedule`).
* `src/pae/ingest/writer.py:14-18` promises that a failing database loses nothing,
  and it does not; a succeeding one can: a row added while its own table's insert
  is awaited is dropped when that insert succeeds
  (`BatchWriter.AddInsideInsertIsLost`).
* `src/pae/proposer/grouping.py:5` says group keys keep proposals from
  duplicating. Two groups of one night can carry one key
  (`ProposalGroups.SameHabitCollides`; exactly when: `KeysCollideIff`,
  `NeverCollidesIff`), and the night then fails if both are drafted
  (`Commits.AlwaysCommitsIff`).
* A draft accepted on the retry is stored even if the second reply says
  `propose: false`: only the first reply's flag is read
  (`src/pae/proposer/service.py:139-171`; `Proposer.WithdrawnDraftIff`,
  `Proposer.WithdrawnDraftIsStored`).

## Model

| member | source | states |
|---|---|---|
| `Circle.DiffIsMinimal` | src/pae/miner/stats.py:18-21 | the signed difference is the one representative in (-720, 720] minutes |
| `Circle.DistIsLeast` | src/pae/miner/stats.py:18-21 | the circular distance is the least difference over all pairs of days, and is attained |
| `Circle.Triangle` | src/pae/miner/stats.py:18-21 | triangle inequality of the circular distance |
| `Circle.DistRotates` | src/pae/miner/stats.py:18-21 | turning both clocks keeps their distance |
| `Circle.ArcsStayApart` | src/pae/miner/stats.py:18-21 | two short arcs with far ends are far apart throughout |
| `Clusters.ClusterMinutes` | src/pae/miner/stats.py:48-63 | sort, split and merge return a partition of the indexes into the connected components of "circular distance at most gap", each listed in clock order |
| `Clusters.SplitAtWideGaps` | src/pae/miner/stats.py:55-60 | the loop cuts the sorted list exactly where neighbours are more than gap apart |
| `Clusters.ClockOrderIsClockOrder` | src/pae/miner/stats.py:55 | the sorted index list is a permutation in clock order |
| `Clusters.MergeGivesComponents` | src/pae/miner/stats.py:61-63 | joining the last run to the first across midnight turns runs on a line into components on the circle |
| `Clusters.RotationInvariant` | src/pae/miner/stats.py:48-63 | two indexes share a cluster before a rotation of all clocks iff they do after it |
| `Clusters.ClustersStayApart` | src/pae/miner/stats.py:48-63 | clock times on the arcs of different clusters are more than gap apart |
| `PairMiner.MineEventPairs` | src/pae/miner/pairs.py:21-115 | the emitted patterns are exactly those of the quadratic definition, one per key; `PairReport.EmittedIff` spells out which and with what numbers |
| `PairReport.EmittedIff` | src/pae/miner/pairs.py:75-115 | a key is emitted, once, iff it has antecedents, at least min_pairs of them, at least min_confidence of all occurrences, and min_lift times the rate by chance (changes by hand × window / span); the pattern carries these numbers, the days, and the first and last change |
| `PairReport.TransitionsAre` | src/pae/miner/pairs.py:35-39 | what is mined are the events with a proper new state other than the old one, in time order |
| `PairMiner.ScanHits` | src/pae/miner/pairs.py:49-73 | the dictionary holds, for every key, the record the quadratic definition gives |
| `PairMiner.ScanBack` | src/pae/miner/pairs.py:53-73 | the backward scan with early break and `seen` records for each antecedent state its latest occurrence with min_gap <= gap <= window, once |
| `PairMiner.RecordPosition` | src/pae/miner/pairs.py:66-73 | recording the nearest position keeps the dictionary equal to the definition |
| `PairMiner.PairBounds` | src/pae/miner/pairs.py:40-80 | n_ab is at most either count, and positive |
| `PairMiner.RecordIsAntecedents` | src/pae/miner/pairs.py:67-71 | the recorded indexes are the nearest antecedents of the key's followers |
| `PairMiner.OccurrencesAreInstants` | src/pae/miner/pairs.py:71 | with a positive minimum gap, counted indexes correspond to distinct instants |
| `PairMiner.OrderIndependent` | src/pae/miner/pairs.py:35-73 | with a positive minimum gap a key's mined pattern is the same for every permutation of the events, tied times included |
| `PairMiner.PairsIgnoreOrderIff` | src/pae/miner/pairs.py:35-73 | which pairs are found is independent of the input order iff the minimum gap is positive or the window negative |
| `PairMiner.OrderMatters` | src/pae/miner/pairs.py:37-62 | otherwise two simultaneous events pair in one order only |
| `PairMiner.EmittedCounts` | src/pae/miner/pairs.py:76-112 | 0 < n_ab <= n_a, n_ab <= n_b and 0 < confidence <= 1 for every emitted pair |
| `PairMiner.EmittedLift` | src/pae/miner/pairs.py:83-86 | the chance rate is positive for a positive window, and lift is the quotient |
| `PairMiner.EmittedSupport` | src/pae/miner/pairs.py:99 | support is positive, and at most 1 once the observed days cover the events' dates |
| `TodMiner.MineTimeOfDay` | src/pae/miner/tod.py:49-133 | exactly one candidate per cluster that passes the gates, for every habit with observed days; `HabitReport.MinedIff` spells out which and with what numbers |
| `HabitReport.HabitEvents` | src/pae/miner/tod.py:49-55 | a habit is mined from exactly the actionable switches by hand into its state, on days of its type |
| `HabitReport.MinedIff` | src/pae/miner/tod.py:62-132 | a cluster is emitted iff it has enough events on enough of the observed days; its candidate carries the ratios of days and of entries within the tolerance of the mean, and is suspected to be a schedule iff no event has a user id and the clock, or sunrise or sunset over a long enough window, explains it |
| `HabitReport.UserIdClears` | src/pae/miner/tod.py:77-78 | one event with a user id clears the suspicion and changes nothing else |
| `Schedules.ScheduleIsKeptOut` | src/pae/proposer/gates.py:9-47 | from the events on: the entity of a scheduled-looking cluster whose candidate survives the dedupe is member or trigger of no group of the next run |
| `Schedules.CollisionHidesSchedule` | src/pae/miner/service.py:101-109 | without surviving, the suspicion is lost: a drifted schedule displaced by a busier newcomer on its key |
| `TodMiner.MineHabit` | src/pae/miner/tod.py:62-132 | one habit's clusters are the components of its clock times, and each passing one is listed once |
| `TodMiner.CandidateIsSound` | src/pae/miner/tod.py:64-131 | a candidate's key spells out its habit and its cluster's mean, its clock time is that mean rounded, and it passed the gates |
| `TodMiner.CandidateRatios` | src/pae/miner/tod.py:68-76 | 0 < support <= 1 once the observed days cover the habit's dates; 0 <= consistency <= 1 |
| `TodMiner.MinedAreSeparated` | src/pae/miner/tod.py:63-118 | stored clock times of one habit's candidates differ by at least the cluster gap rounded down to a tenth of a minute; if no mean falls half way between tenths, rounded up when the remainder is 4 or 5 seconds |
| `TodMiner.MinedReconcileCleanly` | src/pae/miner/tod.py:42-118 | mined keys fit their habits; at any gap of a tenth of a minute or more one habit's clock times differ; where the gap so rounded exceeds twice the tolerance, they are separated as reconciliation wants |
| `Separation.SeparationIff` | src/pae/miner/tod.py:42-118 | with the circular mean, on every night whose clusters span less than half a day, stored clock times are more than twice the tolerance apart iff the gap, rounded to tenths as above, exceeds twice the tolerance (or spans half a day); the same for nights without ties |
| `Separation.RoundingBringsClose` | src/pae/miner/tod.py:63-118 | for every other gap, a night whose clusters are further apart than the gap and whose stored times are too close; exact ties are used only for gaps 4 or 5 seconds past a tenth, where nothing else fails |
| `Separation.ConfiguredGapFails` | src/pae/miner/tod.py:42-43 | the default 90 and 45 minutes fail, on nights without any tie |
| `CircularMean.MeanOfShortArc` | src/pae/miner/stats.py:24-28 | the direction of the vector sum of clock times on an arc of less than half a day lies on that arc, ends included |
| `Dials.CircularMeansExist` | src/pae/miner/stats.py:24-28 | what is assumed of a circular mean can be met: a dial and a second for the direction of every sum |
| `Clusters.MeanOnOwnArc` | src/pae/miner/stats.py:24-63 | so the circular mean of a cluster that spans less than half a day lies between two successive entries of it |
| `TodMiner.MinedKeysDistinct` | src/pae/miner/tod.py:113 | with a gap of half an hour, fresh keys of one night never collide |
| `PatternKeys.ReconcileKeys` | src/pae/miner/service.py:61-98 | each candidate keeps its own key or adopts the contested one, as the least (distance, index) decides |
| `PatternKeys.BestRow` | src/pae/miner/service.py:81-87 | the inner loop finds the nearest row within tolerance, the later of equals |
| `PatternKeys.NearestOfIsLeast` | src/pae/miner/service.py:81-87 | that is: a row within tolerance, nearer than every later one and no further than any |
| `PatternKeys.IndexRows` | src/pae/miner/service.py:73-77 | the index lists each habit's rows in listing order |
| `PatternKeys.ClaimKeys` | src/pae/miner/service.py:90-97 | the claiming loop over the ranking gives every key to its first contender |
| `PatternKeys.NearestIsLeast` | src/pae/miner/service.py:81-87 | the contested key belongs to a nearest in-range row, and there is one iff any row is in range |
| `PatternKeys.FirstContenderWins` | src/pae/miner/service.py:92-97 | the ranking meets the least (distance, index) contender first |
| `PatternKeys.ReconcilePermutes` | src/pae/miner/service.py:90-98 | the output is the ranked input, changed in nothing but keys |
| `PatternKeys.RankingListsAll` | src/pae/miner/service.py:92 | the ranking lists every candidate once |
| `PatternKeys.ContestedKeyHasOneAdopter` | src/pae/miner/service.py:91-95 | every contested key is adopted by exactly one candidate |
| `PatternKeys.AdoptedRowMatches` | src/pae/miner/service.py:73-97 | an adopted key comes from a row of the same habit within tolerance |
| `PatternKeys.DedupeCandidates` | src/pae/miner/service.py:101-109 | all keys kept, each once, with a candidate of most occurrences |
| `PatternKeys.ExecuteUpsert` | src/pae/miner/service.py:115-134 | one statement merges its rows, and fails iff it would touch a row twice |
| `PatternKeys.UpsertPatterns` | src/pae/miner/service.py:112-134 | a deduplicated list never fails, and chunking is not visible |
| `PatternKeys.RowSays` | src/pae/miner/service.py:115-134 | a merged row has the candidate's numbers and the earlier first sighting; a stored row keeps kind, habit and status |
| `PatternKeys.RunMining` | src/pae/miner/service.py:183-199 | reconcile, dedupe and upsert compose to one night |
| `PatternKeys.KeptKeys` | src/pae/miner/service.py:183-199 | the table's keys after a night are the old ones and the reconciled ones |
| `PatternKeys.NightAddsNoKeyIff` | src/pae/miner/service.py:61-134 | whatever was mined, a night adds no time-of-day key iff each candidate wins a stored row (nearest in range, no better contender) or finds its own key stored |
| `PatternKeys.SeparatedNightAddsNoKeyIff` | src/pae/miner/service.py:61-134 | for habits more than 2·tolerance apart, being within tolerance of a stored row is enough to win one |
| `PatternKeys.RowAfterNight` | src/pae/miner/service.py:112-134 | a candidate whose key is not shared leaves a row with its habit and clock time |
| `PatternKeys.SecondNightAddsNoKeyIff` | src/pae/miner/service.py:61-134 | a second night over the same candidates adds no key iff each wins a row of the first night's table or finds its own key there; where clock times differ, every candidate that kept its own row wins |
| `PatternKeys.SeparatedSecondNightIff` | src/pae/miner/service.py:61-134 | for separated candidates: iff the first night left each with a row in reach or its own key |
| `PatternKeys.RemineIsStable` | src/pae/miner/service.py:61-134 | it adds none, when one habit's clock times differ and the first night's keys do not collide |
| `PatternKeys.CollisionAddsKey` | src/pae/miner/service.py:61-134 | without the second condition it can add one: two candidates 135 minutes apart |
| `PatternKeys.MiddleRowAddsKey` | src/pae/miner/service.py:81-97 | stored exactly twice the tolerance apart, two candidates reach one row and the night adds a key all the same |
| `PatternKeys.MinerKeepsStatus` | src/pae/miner/service.py:115-134 | known patterns keep status and habit, new ones start as candidates, none disappears |
| `MiningRuns.RunMining` | src/pae/miner/service.py:150-199 | one run: nothing without events, else both miners with the days per day type, the observed days and the span counted from the events, reconciled, deduplicated and merged |
| `MiningRuns.CountDays` | src/pae/miner/service.py:157-160 | the loop over the observed dates counts those of each day type |
| `MiningRuns.PairsKeepTheirKeys` | src/pae/miner/pairs.py:88-114 | mined pairs have distinct keys, so the dedupe drops none of them |
| `MiningRuns.PairRowSays` | src/pae/miner/pairs.py:88-114 | a mined pair's row names trigger, state, target and action, and carries the pair's confidence, support, lift and sightings |
| `MiningRuns.StoredRatios` | src/pae/miner/service.py:150-199 | every row a run writes has positive support and confidence of at most one |
| `MiningRuns.NightKeepsKeysIff` | src/pae/miner/service.py:162-199 | from the events on and for all settings: a night adds no time-of-day key iff each mined habit wins a stored row or finds its own key; where the gap suffices, iff each has a row within tolerance or its own key |
| `MiningRuns.RepeatedNightIff` | src/pae/miner/service.py:162-199 | from the events on and for all settings: the second-night condition; from a gap of a tenth of a minute on, habits that kept their row always win |
| `MiningRuns.RepeatedNightIsStable` | src/pae/miner/service.py:162-199 | at such gaps, the configured one included: no key is added if the first night's keys did not collide |
| `Gates.EligiblePatterns` | src/pae/proposer/gates.py:17-52 | the guarded loop keeps exactly the eligible patterns, in order |
| `Gates.PassesGates` | src/pae/proposer/gates.py:31-51 | the guards pass iff the pattern meets every requirement |
| `Gates.EligibleIsSafe` | src/pae/proposer/gates.py:9-52 | a pattern is eligible iff it was not rejected, is on no schedule, touches registered entities only that no suspected schedule drives, and reaches every limit for its kind |
| `Gates.FlaggingIsMonotone` | src/pae/proposer/gates.py:9-14 | storing one more pattern makes no other pattern eligible |
| `ProposalGroups.BuildGroups` | src/pae/proposer/grouping.py:37-70 | the groups partition the eligible patterns, no pair that belongs together is split, each group is strung together, and its fields describe it |
| `ProposalGroups.GroupTods` | src/pae/proposer/grouping.py:40-53 | the same for the time-of-day half |
| `ProposalGroups.GroupPairs` | src/pae/proposer/grouping.py:55-69 | the same for the pair half |
| `ProposalGroups.SplitDay` | src/pae/proposer/grouping.py:46-53 | the growing and closing of `cluster` cuts one day type exactly at gaps wider than the window |
| `ProposalGroups.NearMeans` | src/pae/proposer/grouping.py:40-59 | patterns belong together iff they have one trigger entity and state, or one day type and clock times at most the window apart |
| `ProposalGroups.GroupSays` | src/pae/proposer/grouping.py:60-80 | a group's day type or trigger is that of all its members, and its mean that of their clock times |
| `ProposalGroups.GroupsAreComponents` | src/pae/proposer/grouping.py:37-70 | two patterns share a group iff a chain of close ones links them |
| `ProposalGroups.NeighboursAreClose` | src/pae/proposer/grouping.py:47-51 | clock times inside a group follow each other by at most the window |
| `ProposalGroups.GroupsAreFarApart` | src/pae/proposer/grouping.py:47-51 | members of different groups of one day type are more than the window apart; pair groups differ in trigger |
| `ProposalGroups.GroupsIgnoreOrder` | src/pae/proposer/grouping.py:37-83 | every group of one listing is, with the same members and key, a group of any other listing |
| `ProposalGroups.KeysCollideIff` | src/pae/proposer/grouping.py:68-82 | two groups of a night share a key iff they are of one day type, with the same (entity, action) set and means in one half hour |
| `ProposalGroups.KeysAreDistinctIff` | src/pae/proposer/grouping.py:68-82 | keys differ however clock times are averaged iff no two groups of one day type carry the same (entity, action) set |
| `ProposalGroups.NeverCollidesIff` | src/pae/proposer/grouping.py:37-83 | with the circular mean, keys differ on every night whose groups lie in the day and span less than half of it iff the window is at least a tenth of a minute short of half an hour |
| `ProposalGroups.SameHabitCollides` | src/pae/proposer/grouping.py:73-83 | for every narrower window: two stored patterns of one lamp, with different keys, whose groups share one |
| `Schema.SplitService` | src/pae/proposer/schema.py:182-185 | splits at the first dot, and fails iff there is none |
| `Schema.ValidateProposal` | src/pae/proposer/schema.py:147-222 | no errors iff the automation parses and is valid, and only then is it returned |
| `Schema.ValidIff` | src/pae/proposer/schema.py:161-222 | valid means: mentions members or the trigger of the group only, all registered; calls only one of the twelve allowed services, on its own domain; and triggers on the mined entity and state, or at a clock or sun time within the grace of the mined mean |
| `Schema.ReferencesAre` | src/pae/proposer/schema.py:166-174 | an automation mentions its state trigger, its state conditions and its targets |
| `Schema.CheckEntities` | src/pae/proposer/schema.py:175-179 | no error iff every reference is in the group and registered |
| `Schema.CheckActions` | src/pae/proposer/schema.py:181-190 | no error iff every service is well-formed, allowed and of its targets' domain |
| `Schema.CheckTrigger` | src/pae/proposer/schema.py:192-220 | no error iff the trigger agrees with what was mined |
| `Schema.ValidActionsAreSafe` | src/pae/proposer/schema.py:147-222 | every action of a valid automation has a known result state and drives registered group entities of its own domain |
| `Proposer.ProcessGroups` | src/pae/proposer/service.py:79-197 | counters, inserts, marks and calls are those the per-group outcomes give |
| `Proposer.AskModel` | src/pae/proposer/service.py:112-191 | a group is drafted iff the model proposes and the first or the second reply is acceptable; the second call is made iff the first draft is not |
| `Proposer.OutcomeIs` | src/pae/proposer/service.py:95-195 | when a group is revived, skipped, failed, declined, invalid or drafted, by the stored status and the two replies |
| `Proposer.CountersAre` | src/pae/proposer/service.py:95-193 | each counter is the number of groups that met the fate it is named after |
| `Proposer.EveryGroupIsCounted` | src/pae/proposer/service.py:93-197 | considered = generated + declined + validation failed + skipped + failed first calls |
| `Proposer.EveryDraftIsCounted` | src/pae/proposer/service.py:174-193 | generated is the number of inserts |
| `Proposer.AtMostTwoCalls` | src/pae/proposer/service.py:95-150 | one or two calls per unknown group, none for a known one |
| `Proposer.DraftedIsAcceptable` | src/pae/proposer/service.py:130-193 | a draft is valid for its group, titled, explained, and its key is unknown |
| `Proposer.DraftSays` | src/pae/proposer/service.py:175-192 | an insert has the accepted reply's texts and automation, and its group's kind, key, pattern keys and entities, the trigger's included |
| `Fires.PairDraftFires` | src/pae/shadow/service.py:102-107 | a drafted event pair fires, on any history and day, exactly at the changes of its mined trigger entity to its mined state |
| `Fires.TodDraftIsDue` | src/pae/proposer/schema.py:192-215 | a drafted time of day is due within the grace of its mined mean on the day it was validated for |
| `Proposer.DraftsFitTheTable` | src/pae/proposer/service.py:272-274 | the insert violates the unique index iff two groups of one key are both drafted |
| `Proposer.WithdrawnDraftIff` | src/pae/proposer/service.py:139-171 | a draft carries the first acceptable content, which says "do not propose" iff the first reply proposed something unacceptable and the acceptable second one withdraws |
| `Proposer.WithdrawnDraftIsStored` | src/pae/proposer/service.py:139-193 | such a night, and its one insert |
| `Commits.DraftableIff` | src/pae/proposer/service.py:112-195 | some reply is accepted for a group without a row iff the registry knows one of its entities in a domain with an allowed service, and a trigger passes: the mined one if registered; for clock times a non-negative grace, or a sun trigger where the sun does not rise |
| `Commits.AlwaysCommitsIff` | src/pae/proposer/service.py:272-274 | a night commits whatever the model replies iff no two such groups share a key |
| `Proposer.MarkedOrigin` | src/pae/proposer/service.py:107-108 | a pattern is marked iff it is a member of a drafted or revived group |
| `Proposer.DraftsAreSafe` | src/pae/proposer/service.py:228-247 | from stored patterns to insert: only registered, unscheduled entities of the own group, allowed services of the right domain, whatever the model replies |
| `Proposer.SafeMeansEvaluable` | src/pae/shadow/service.py:151-153 | the evaluator's state lookup fails on no such automation, on no day |
| `ProposeRuns.RunProposing` | src/pae/proposer/service.py:218-315 | one transaction over the stored patterns: commits iff the drafts' keys differ, then leaves the tables of an atomic night whose plan fits, else changes nothing |
| `ProposeRuns.MarksAreStored` | src/pae/proposer/service.py:276-284 | a run marks stored patterns only, and none that was rejected |
| `ProposeRuns.RejectedIsNeverGrouped` | src/pae/proposer/repo.py:210-222 | a pattern rejected with its proposal is in no group of any later run |
| `ProposeRuns.NightFits` | src/pae/proposer/service.py:249-284 | whenever the drafts can be inserted, what the loop decided fits the statuses read and the groups present, shared keys included |
| `Lifecycle.Store.SetStatus` | src/pae/proposer/repo.py:192-223 | flips only a shadowing or stale proposal, and it alone; rejecting turns exactly its proposed sources to rejected; otherwise nothing changes |
| `Lifecycle.Store.ApplyPlan` | src/pae/proposer/service.py:249-315 | the statement sequence yields the atomic night's tables and counts what went stale |
| `Lifecycle.Store.UpsertPatterns` | src/pae/miner/service.py:115-134 | every mined key is stored, new ones as candidates, no status changes, and owned patterns stay owned |
| `Lifecycle.ProposalAfterNight` | src/pae/proposer/service.py:249-303 | what one night does to one proposal, case by case |
| `Lifecycle.PatternAfterNight` | src/pae/proposer/service.py:276-315 | what one night does to one pattern |
| `Lifecycle.SweptAreRetired` | src/pae/proposer/service.py:286-296 | what the sweep counts are the live proposals not seen since the cutoff |
| `Lifecycle.NightKeepsOwnedIff` | src/pae/proposer/service.py:249-315 | a night keeps "proposed patterns are sources of a live proposal" iff no revived group marks a pattern no surviving proposal lists |
| `Lifecycle.ProposedIsOwned` | src/pae/proposer/service.py:241-315 | the same over every sequence of mining, nights, approvals and rejections, when revived groups bring stored keys only |
| `Lifecycle.RevivalCanOrphan` | src/pae/proposer/service.py:105-110 | without that, a revival orphans a pattern |
| `Lifecycle.NightLeavesNoneStale` | src/pae/proposer/service.py:249-303 | after a night no present group is stale and every live proposal was eligible since the cutoff |
| `Lifecycle.RejectionIsFinal` | src/pae/proposer/repo.py:184-189 | over every run of atomic steps, rejected proposals and patterns stay rejected and nothing is deleted |
| `Lifecycle.ApprovedUntilRetired` | src/pae/proposer/service.py:288-303 | an approval lasts until exactly the night whose sweep retires it |
| `Lifecycle.RevivalForgetsApproval` | src/pae/proposer/service.py:266-270 | an approved proposal that went stale comes back as shadowing |
| `Interleaving.PatternRejectionAbsorbs` | src/pae/proposer/service.py:276-315 | a pattern's rejection survives every interleaving of single statements |
| `Interleaving.RejectionUndoneIff` | src/pae/proposer/service.py:257-303 | a statement undoes a proposal's rejection iff it is the sweep's UPDATE and the row was selected before; the revive never does |
| `Interleaving.ProposalRejectionIsFinal` | src/pae/proposer/service.py:288-303 | with the sweep's SELECT and UPDATE as one step, rejection is final over every run |
| `Interleaving.SweepUndoesRejection` | src/pae/proposer/service.py:288-303 | without that, a concrete run loses a rejection |
| `Interleaving.RejectionRacesMarking` | src/pae/proposer/service.py:257-284 | a rejection during the model's calls leaves its patterns proposed with no live proposal |
| `Ownership.MarkingKeepsOwnedIff` | src/pae/proposer/service.py:276-284 | the marking statement keeps "proposed means owned" iff every candidate it marks has a live owner at that moment |
| `Ownership.MarkingKeepsCoveredIff` | src/pae/proposer/service.py:276-284 | with revived groups bringing stored keys, it leaves a pattern uncovered iff every group marking it was rejected meanwhile and nothing else holds it |
| `Ownership.StepKeepsCovered` | src/pae/proposer/service.py:249-315 | no other statement, miner or operator step uncovers a pattern |
| `Ownership.CoveredThroughoutIff` | src/pae/proposer/service.py:241-315 | over every interleaved run, patterns stay covered throughout iff no marking comes after such a rejection |
| `Ownership.RestIsOwned` | src/pae/proposer/service.py:241-315 | from rest to rest such a run ends with every proposed pattern owned |
| `Interleaving.InsertNeverCollides` | src/pae/proposer/service.py:272-274 | whatever runs in between, the inserted keys are still new |
| `Interleaving.UninterruptedIsAtomic` | src/pae/proposer/service.py:249-315 | the seven statements without interruption are the atomic night |
| `Interleaving.UninterruptedDecision` | src/pae/proposer/repo.py:200-222 | a decision's two statements without interruption are the one decision |
| `Shadow.EvaluateDay` | src/pae/shadow/service.py:118-187 | the nested counting loops compute the tally over action-target slots |
| `Fires.FiresEveryDay` | src/pae/shadow/service.py:62-101 | an automation by clock or sun without conditions fires every day |
| `Fires.WeekdaysDecide` | src/pae/shadow/service.py:62-67 | with one weekday condition it fires exactly on the weekdays listed |
| `Fires.ConditionsCombine` | src/pae/shadow/service.py:62-67 | two lists of conditions together let it fire iff each does |
| `Fires.OthersAreIgnored` | src/pae/shadow/service.py:3-6 | a condition that lists no weekdays keeps no day out |
| `Fires.FireTimeDecides` | src/pae/shadow/service.py:91-115 | a lone human event matches iff its clock is within the tolerance of the trigger's time, or of that day's sunrise or sunset plus the offset |
| `Fires.CallsAreScored` | src/pae/shadow/service.py:152-153 | each of the twelve calls is scored against the state it brings about |
| `Shadow.EvaluateTargets` | src/pae/shadow/service.py:152-183 | the inner loop extends the tally by one action's targets |
| `Shadow.PairMatchIsExact` | src/pae/shadow/service.py:70-246 | with window <= tolerance and window <= one day, a pair fire matches iff some human event of the whole history follows within the window |
| `Shadow.PairMatchExactIff` | src/pae/shadow/service.py:70-246 | this agreement holds for all histories, days and fires iff the window exceeds neither the tolerance nor one day |
| `Shadow.PairScoreIsExact` | src/pae/shadow/service.py:118-246 | the whole pair score from fetch, buckets, tails and shifts equals the score on the unbounded history |
| `Shadow.WiderWindowMisses` | src/pae/shadow/service.py:205-246 | with a wider window a follower is missed, for every such setting |
| `Shadow.NothingIsMissed` | src/pae/shadow/service.py:111-115 | a human event within the real tolerance always matches a clock fire inside the day |
| `Shadow.ClockMatchExactIff` | src/pae/shadow/service.py:91-115 | on every scored day, for every tolerance and fire, clock matching is exact for all histories iff the fire is more than twice the tolerance from both midnights (at least twice from the first on the last scored day) |
| `Shadow.WrongDayMatches` | src/pae/shadow/service.py:91-115 | otherwise a single event tells matching from real time |
| `Shadow.ClockScoreExactIff` | src/pae/shadow/service.py:118-246 | the whole score of a time- or sun-triggered proposal on a day equals the real-time score for all histories iff it does not fire or fires that clear of both midnights |
| `Coverage.PrecisionAtMostOne` | src/pae/shadow/service.py:148-183 | matches <= expected fires = fires x slots |
| `Coverage.CoverageBound` | src/pae/shadow/service.py:148-183 | matches <= total + neighbouring days' human events inside some fire's window, when no event can match two fires |
| `Coverage.CoverageAtMostOneIff` | src/pae/shadow/service.py:6-11 | for given fires, matches <= total on every history that makes the automation fire so iff pair fires are more than the window apart and end before midnight, or the clock fire is more than twice the tolerance from both midnights |
| `Coverage.CanFireIff` | src/pae/shadow/service.py:86-108 | the fires spoken of are those some history produces |
| `Coverage.EveryPairCanExceedOne` | src/pae/shadow/service.py:6-11 | no pair automation with a non-negative window keeps the bound on every history |
| `Coverage.MatchesAtMostCandidates` | src/pae/shadow/service.py:173-183 | pigeonhole: fires more than the window apart are matched by different events |
| `Coverage.ClockFiresApart` | src/pae/shadow/service.py:91-99 | a clock automation fires at most once a day |
| `Coverage.CoverageCanExceedOne` | src/pae/shadow/service.py:6-11 | one match, no events: a clock fire at 00:10 |
| `Coverage.PairCoverageCanExceedOne` | src/pae/shadow/service.py:118-187 | one match, no events: a pair fire at 23:58 |
| `Shadow.TruncationLosesNothing` | src/pae/miner/stats.py:13-15 | reading clocks in whole seconds moves no event across the window by a second or more |
| `ShadowRuns.MakePlans` | src/pae/shadow/service.py:276-301 | plans every live, parsable proposal with missing days, and the fetch range covers them |
| `ShadowRuns.BucketByDay` | src/pae/shadow/service.py:316-326 | each bucket holds the day's rows in order |
| `ShadowRuns.ScorePlan` | src/pae/shadow/service.py:329-355 | one proposal's missing days are each scored or not evaluable |
| `ShadowRuns.RunShadowEval` | src/pae/shadow/service.py:249-358 | the rows inserted are exactly the missing (proposal, day) scores |
| `ShadowRuns.ScoredAtMostOnce` | src/pae/shadow/service.py:270-358 | over any sequence of runs no (proposal, day) is inserted twice |
| `ShadowRuns.EveryDayIsScored` | src/pae/shadow/service.py:276-355 | after a run every day of a shadowing or approved proposal, since its creation and within the lookback, up to yesterday, is stored unless the sun does not say |
| `ShadowRuns.RowOrigin` | src/pae/shadow/service.py:276-355 | and only such days are inserted, with the score of that proposal and day |
| `ShadowRuns.PairRowsAreExact` | src/pae/shadow/service.py:329-355 | every inserted pair row is the score on the unbounded history |
| `ShadowRuns.ClockRowsAreExact` | src/pae/shadow/service.py:329-355 | every inserted time or sun row is the real-time score on the unbounded history, if its fire is clear of both midnights |
| `RowSlider.TemplateIsValue` | ha/basement_tablet/entities.py:46-61 | the rendered elif chain counts the rows lit from the rear |
| `RowSlider.ValueCounts` | ha/basement_tablet/entities.py:46-61 | the value is the unique count of uninterrupted lit rear rows |
| `RowSlider.ApplyThenRead` | ha/basement_tablet/helpers.py:51-82 | applying a slider value and reading the rows gives it back, for any number of non-empty rows |
| `RowSlider.InvIsKept` | ha/basement_tablet/helpers.py:51-103 | every step of users, lights and both automations keeps "in sync, syncing or applying" |
| `RowSlider.SettledIsStable` | ha/basement_tablet/helpers.py:85-103 | once in sync, later apply and sync steps keep value and slider equal |
| `RowSlider.QuietMeansTruthful` | ha/basement_tablet/helpers.py:51-103 | after any interleaving, when nothing is pending the slider shows the rows |
| `RowSlider.LoopSettles` | ha/basement_tablet/helpers.py:51-103 | once inputs stop, the automations take boundedly many steps in any order and end with slider = value of the rows |
| `ContextCache.Cache.Add` | src/pae/ingest/attribution.py:34-37 | the dictionary after prune and insert, remembering the log |
| `ContextCache.Cache.Prune` | src/pae/ingest/attribution.py:48-51 | no lookup from then on can tell; from ten thousand entries on, none is left expired |
| `ContextCache.Cache.Get` | src/pae/ingest/attribution.py:39-46 | answers as an unpruned log would: the last add for that id, iff its time + ttl >= now |
| `ContextCache.LookupSays` | src/pae/ingest/attribution.py:39-46 | that is the source of the last announcement for the id, until time + ttl inclusive, and none otherwise |
| `ContextCache.Cache.Attribute` | src/pae/ingest/attribution.py:54-70 | the own context's announced source, else the parent's, else an automation's for an unknown parent and a human's without one, as an unpruned log would tell |
| `ContextCache.PruningIsUnobservable` | src/pae/ingest/attribution.py:27-70 | every run of adds and lookups answers the same with and without pruning |
| `BatchWriter.Writer.AddRow` | src/pae/ingest/writer.py:26-27 | the row is buffered last in its table |
| `BatchWriter.Writer.Flush` | src/pae/ingest/writer.py:36-49 | uninterrupted, each table's rows are all written or all kept |
| `BatchWriter.InvIsKept` | src/pae/ingest/writer.py:26-49 | every step keeps each row written, buffered or counted as lost |
| `BatchWriter.ConservedExactlyWhenQuiet` | src/pae/ingest/writer.py:26-49 | written ++ buffered = added, in order, iff no row was added inside a succeeding insert of its table |
| `BatchWriter.AddInsideInsertIsLost` | src/pae/ingest/writer.py:42-49 | a row added inside the insert is lost |

## Left out

- `circular_std`, `pstdev`, sun times, holidays, time zones and daylight saving: real analysis and library behaviour; deviations, weekends and sun minutes are parameters and days have a fixed length. Sines and cosines enter the circular mean by their signs only, and floating-point error not at all.
- Rounding of stored metrics; of clock times, the half-to-even rule for exact ties (either neighbour is allowed).
- Evidence columns other than what the keys need and the sample times of pairs; the order in which pair candidates and proposal groups are listed, and of patterns at one clock time within a group.
- SQL, sessions, migrations, HTTP, websockets, metrics, logging, the job queue, the web interface and prompts: plumbing around the modelled updates. Statement interleaving assumes that each statement sees the latest rows and that row locks make each UPDATE atomic.
- Parsing of raw JSON and clock strings: the model starts from a parsed automation, and stored automations parse back to themselves.
- The SHA-1 digest of a group key is taken to be injective.
- `ready` and `_ready_fetch_limit` (src/pae/proposer/repo.py:75-107): single-branch calculations.
- Home Assistant beyond what the two automations assume: restart mode, commands that succeed, and a silent unchanged set_value.
- Proposer.Blank: knows the ASCII white space that `strip()` removes, not the rest of Unicode's.
- `needs_flush` and `pending` of the batch writer.
- PatternKeys.RemineIsStable: sufficient only, because it speaks of the first night alone; `PatternKeys.SecondNightAddsNoKeyIff` is exact and looks at the rows the second night finds.
- TodMiner.MinedAreSeparated: speaks of clusters that span less than half a day, as do the results built on it; the mean of a wider one can lie off its arc.
- ProposalGroups.NeverCollidesIff: speaks of groups that span less than half a day and of stored times before midnight; a mean in the last three seconds of the day is stored as 1440.0, and which half hour its group falls in is decided by floating-point error.
- Conditions other than weekdays (`after`, `before`, state, sun): stored but not evaluated by the source either.
