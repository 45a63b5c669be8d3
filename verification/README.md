# Proved behaviour of the usage-metering and billing core

This project models the parts of the repository that decide what is counted, what is billed and what
survives a crash, and proves what they keep over every input, every run and every interleaving.
`dafny verify dfyconfig.toml` checks all of it.

The modules follow the program:

- **Transcripts.** `Transcript` reads and normalises log records. `SegmentMerge` builds the graph of a
  log's physical copies and merges it; `PriorityTopology` is the emission loop over any graph and
  `SegmentLaws` says what a merged transcript is. `TextOrder` is the order of strings and `Timestamps`
  the canonical UTC text of an instant, whose texts compare as the instants do. `Replay` indexes a session
  and counts the usage records a forked child inherited.
- **The subscription ledger.** `Calendar` has the anchor periods and the separate month-label arithmetic,
  over the proleptic Gregorian calendar of section 3.2.1 of ISO 8601:2004. `UsageSnapshot` folds poll
  outcomes into a stored payload, `BillingUnits` reads it back, `FxRates` looks rates up. `Ledger` is the
  materializer as a function of the ledger; `LedgerStore` is the same materializer updating a table row by
  row. `LedgerLaws` and `LedgerSettling` prove what one run and repeated runs keep, and `PeriodRules` exactly
  when a period opens or an open charge settles. `BillingRuns` runs the whole state machine (polls, runs at
  nondecreasing moments, price changes, rate rows), and `Cancellation` schedules ends.
- **Upgrade and worker.** `UpgradeRoutes` has the branches a start-up takes for any pair of databases and
  every pair it leaves on disk on the way. `PairUpgrade` runs them on a disk that may stop before any file
  operation: the manifest, backup, replace and recover protocol, and the branches that migrate in place.
  `ImportWorker` is the one-thread import worker, as any interleaving of triggers, stops, clock ticks and
  single steps of the thread.
- **Downstream accounting.** `UsageArchive` has the dashboard's additive upserts, rounding and archiving,
  and `UsageExport` the export of the request log in mark windows; `AccountUsage` says what a single account
  is shown and billed. `ExportEvents` and `EventSources` keep the immutable export events, `EventFacts` says
  what they state, `LedgerEvents` ties them to the ledger they are read from, and `EventBooking` books them.
  `Bindings` holds the dated ownership intervals. `CostReport` and `CostByDay` attribute actual cost and prove
  that purges do not change it; `CostFacts` says which rows count and what a purge removes.

Instants are seconds, day numbers count from a fixed day, prices and costs are reals, and fingerprints
are the records themselves. A raised error is an `Err`, a `None` or a refused outcome, with the state a
rolled-back transaction leaves.

## What the code does otherwise than its documentation says

- **A bare 403 can suspend billing.** The module documentation of `app/services/key_usage.py` says that
  only an entitlement refusal or a success changes the verdict. A 403 without an entitlement body on a
  credential that never had a success stores no verdict, and the next poll reads that payload as lapsed.
  `UsageSnapshot.OnlyEntitlementLapsesIff` gives the exact histories for which the documented rule holds,
  and `UsageSnapshot.BareForbiddenLapses` and `BillingRuns.BareForbiddenSuspends` the shortest run that
  breaks it.
- **A renamed account can stop the export events.** A comment in `app/db/proxy/billing_export.py` says
  that a rename is never a payload change. In the branch that recovers a legacy agent unit the account
  name is compared. `ExportEvents.SecondRunAddsNothing` proves that a later run raises exactly when such
  an account has been renamed, and `ExportEvents.RenamedLegacyUnitRaises` gives the shortest such run.
- **A subscription that is being ended can still be bound.** The error text of `_replace_bindings` says that
  one which has entered its ending process is refused. The query refuses it only once its end has come. A
  form of an earlier day reopens its ownership past the end (`Bindings.FormBeforeTheEndIsAccepted`), and
  `Bindings.FormsOutliveDeletion` proves that after a deferred deletion a software owns the subscription on
  a date past the end exactly when a later form claimed it last and none has dropped it.

## Where a property stops holding

Each of these fails of the code on some inputs. The lemma named first says exactly when; a second one
gives inputs.

- **A start-up that dies does not always leave the old or the new pair.** It does exactly when its branch
  publishes at most once (`UpgradeRoutes.OldOrNewIffPublishesOnce`). Missing databases and V1 pairs with
  pending migrations are migrated in place, without a manifest. The next start-up finishes the mixed pair
  exactly when it does not hold a file without a version beside one with a version
  (`UpgradeRoutes.NextStartUpIff`); otherwise every later start-up refuses it. A fresh installation
  that dies while the dashboard database is being created leaves one (`UpgradeRoutes.FreshStartCanStick`).
- **A chain period can have no length**: when a first observation lies in the second of the reset it
  reports; when a reported reset lies past the new start but inside its second; or when no reset past the
  new start is reported and the new start is the previous end (`UsageSnapshot.ZeroLengthIff`,
  `UsageSnapshot.ZeroLengthPeriods`).
- **The export mark can move back**: `get_max_log_id` reads the largest id still in the log, so an export
  stores a smaller mark exactly when every row still in the log has an id below a positive mark
  (`UsageExport.MarkMovesBackIff`, `UsageExport.MarkCanMoveBack`). No row is counted twice or lost through
  this: `UsageExport.RunsShowOneExport` covers it.
- **Ended ownership is forgotten.** The finalizer deletes the intervals that ended before today, and with
  them exactly the ownership that rests on no other interval (`Bindings.PruningDropsEnded`,
  `Bindings.EndedTodayIsForgotten`).
- **A record without a timestamp does not sort last.** It sorts as "9999-12-31T23:59:59.999999Z", which as
  text precedes "9999-12-31T23:59:59Z"; against every earlier stamp it is last
  (`SegmentLaws.MissingStampIsNotLast`).

## Model

| member | source | states |
|---|---|---|
| PriorityTopology.CountSuccessorsDown | app/services/codex_segments.py:182-186 | whatever order the successor set is walked in, every counter again equals the number of unemitted predecessors and the ready list again holds exactly the ready nodes |
| PriorityTopology.EmitByPriority | app/services/codex_segments.py:176-186 | the emission loop ends with the order in which every node has the least rank among those whose predecessors are all emitted, and no node is left ready |
| PriorityTopology.OrderExists | app/services/codex_segments.py:169-186 | every ranked graph has an order that leaves no node ready |
| PriorityTopology.OrderIsUnique | app/services/codex_segments.py:169-186 | with an injective rank there is only one such order |
| PriorityTopology.CompleteIffAcyclic | app/services/codex_segments.py:187-189 | the order holds every node exactly when the graph has no cycle: the length test is sound and complete |
| Transcript.NormalizationIsIdempotent | app/services/codex_segments.py:42-85 | normalising a normalised record changes nothing |
| Transcript.CountedAfterNormalization | app/services/codex_segments.py:37-85 | exactly the token_count events and the well-formed durable records come out countable |
| Transcript.NormalizationReadsAs | app/services/codex_segments.py:36-85 | every record comes out as it is, but for a usage record with a countable payload: that becomes a token_count event whose last usage holds exactly the finite ones of the seven fields of `usage`, whose running total exactly those of `thread_token_usage`, and whose other top-level fields are unchanged |
| Transcript.ContextIgnoresNormalization | app/services/codex_segments.py:130-152 | the running context is the same read off raw or normalised records |
| Transcript.ContextIsLatest | app/services/codex_segments.py:130-152 | the context after some records holds the last model and the last tier that any of them names |
| Transcript.RecordsFollowLines | app/services/codex_segments.py:109-128 | a file is read as its dictionary lines in order, each as the normalisation law says, and nothing else |
| SegmentMerge.RanksAreInjective | app/services/codex_segments.py:169-174 | no two nodes share a sort key, the canonical record included |
| SegmentMerge.ReadFile | app/services/codex_segments.py:109-166 | reading one more file turns the dictionary of the records so far into that of the records with it: nodes, successor sets, counters, first contexts and insertion order |
| SegmentMerge.MergeCodexRecords | app/services/codex_segments.py:95-189 | fails with the conflict error exactly when the union of the files' record orders is cyclic, and otherwise returns the records and contexts of the complete priority order; each returned record is a dictionary line of some file, read as the normalisation law says |
| SegmentLaws.NodesAreOccurrences | app/services/codex_segments.py:153-160 | the merged nodes are exactly the (record, occurrence) pairs of the files |
| SegmentLaws.EdgesAreAdjacencies | app/services/codex_segments.py:160-166 | the edges are exactly the adjacent pairs of the files |
| SegmentLaws.MergeIsUnique | app/services/codex_segments.py:95-189 | two merges of the same files are the same transcript |
| SegmentLaws.FileOrderSurvives | app/services/codex_segments.py:95-189 | each file's key sequence is a subsequence of the merged order |
| SegmentLaws.ConflictIffNoCommonOrder | app/services/codex_segments.py:187-188 | the merge succeeds exactly when some arrangement of all records respects every file |
| SegmentLaws.MissingStampIsNotLast | app/services/codex_segments.py:169-174 | compared as texts, a record without a timestamp comes after the stamp of every second but the last of the year 9999, and before that one |
| SegmentLaws.MissingStampsSortByReading | app/services/codex_segments.py:169-174 | records without timestamps sort by reading order among themselves |
| SegmentLaws.StampsSortByTime | app/services/codex_segments.py:169-174 | records with timestamps sort as their instants do, and by reading order within one second |
| SegmentLaws.CanonicalIsFirstMeta | app/services/codex_segments.py:147-149 | the canonical record is the first session_meta of the first file, and there is none only when that file has no session_meta |
| SegmentLaws.CanonicalSortsFirst | app/services/codex_segments.py:169-174 | the canonical record sorts before every other, whatever its stamp |
| SegmentLaws.OrdinalsFollowReading | app/services/codex_segments.py:150-159 | of two records the one read first, over all files in order, has the smaller ordinal |
| SegmentLaws.FirstFileGivesContext | app/services/codex_segments.py:130-159 | a record is emitted with the context of the first file that holds it, at its place in that file |
| SegmentLaws.MultiplicityIsTheMaximum | app/services/codex_segments.py:109-159 | each record occurs as often as in the file that holds it most often, never the sum over the files |
| SegmentLaws.PrefixesMergeToTheLongest | app/services/codex_segments.py:95-189 | when all files are prefixes of one of them there is no conflict and the merge is that file with the contexts it alone gives |
| Replay.SessionIndex | app/services/codex_replay.py:70-189 | the scan with its running maximum and pending list computes, in order, the payloads of the token records, their times as the greatest timestamp so far or the next one to come, the task boundaries with the number of tokens before them, and the first meta record's parent, start and subagent mark, else the file name's session |
| Replay.IndexIsThat | app/services/codex_replay.py:70-189 | these conditions, written over the records alone, hold of the index the other laws speak of |
| Replay.TimesNeverGoBack | app/services/codex_replay.py:113-169 | token times never decrease |
| Replay.SessionCutIsPrefix | app/services/codex_replay.py:238-247 | the session-start cutoff keeps a prefix of the parent's tokens |
| Replay.LongestPrefixSuffix | app/services/codex_replay.py:192-197 | returns the longest child prefix that is a suffix of the parent |
| Replay.LongestPrefixInside | app/services/codex_replay.py:200-206 | returns the longest child prefix found anywhere in the parent |
| Replay.SkipIsBounded | app/services/codex_replay.py:238-277 | there is one skip count; it never exceeds the child's tokens and is at least the length of any child prefix that is a suffix of the cut parent |
| Replay.BySession | app/services/codex_replay.py:209-237 | for every session the dictionary holds its largest copy, the first read among equals |
| Replay.ReplaySkipCounts | app/services/codex_replay.py:209-277 | every reported count is the skip count of a file with that path, and every file with a positive count is reported; with distinct paths, over the index fields alone: the parent is the first largest copy of the session a fork names, else of the one a subagent's thread names, and the count is the longest shared head of what the child could inherit, raised only by a subagent's task boundary, and zero for a file that names no parent and is no subagent |
| Replay.InheritedHeadIsCounted | app/services/codex_replay.py:235-250 | every head of the child that ends what its parent held at the child's start is at most the reported count |
| Replay.CopiesLeaveTheIndexAlone | app/services/codex_replay.py:70-112 | a log merged from its own copies and shorter snapshots has the replay index of the log alone |
| Calendar.YearsStartWhereTheLeapRuleSays | app/core/time.py:120-137 | the month line starts each year where the closed Gregorian leap rule puts it |
| Calendar.PeriodContainsMoment | app/core/time.py:120-137 | for every anchor day the period of a moment contains it, month-end clamping included |
| Calendar.BillingPeriodIsAPeriod | app/core/time.py:120-137 | an anchor day is refused exactly outside 1..31, and otherwise the period contains the moment and is the period of its own start |
| Calendar.PeriodsTile | app/core/time.py:120-137 | two moments share a period exactly when one lies in the period of the other, and the next period starts where one ends |
| Calendar.NextPeriodFollows | app/core/time.py:140-148 | the 32-day jump from a period's start lands in the period that starts at its end |
| Calendar.ChainIsConsecutive | app/db/proxy/billing.py:65-71 | the period chain is gapless and each of its periods is the period of exactly the moments in it |
| Calendar.AnchorPeriodsStartAtTheirDate | app/services/billing_units.py:153-156 | periods anchored at a start date never start before that date once it has come |
| Calendar.LabelsAgreeWithPeriods | app/db/proxy/common.py:89-112 | the month-label arithmetic gives the start and end of the same period |
| Timestamps.WrittenKeepsOrder | app/core/time.py:42-46 | over the years 0 to 9999 canonical texts compare as their instants do, and no two instants share one |
| Timestamps.FractionOfTheLastSecond | app/core/time.py:42-46 | a fraction of the last second comes after every canonical text but that second's own |
| UsageSnapshot.VerdictStep | app/services/key_usage.py:256-384 | from any stored payload, the three outcomes that change the verdict the next poll reads |
| UsageSnapshot.VerdictIsHistory | app/services/key_usage.py:256-384 | the verdict the next poll reads, as a function of the outcome history |
| UsageSnapshot.StoredVerdictIsHistory | app/services/key_usage.py:277-303 | when the stored verdict is lapsed, one poll later than the read one |
| UsageSnapshot.OnlyEntitlementLapsesIff | app/services/key_usage.py:256-303 | the documented rule holds of a history exactly when no bare 403 met a credential without any success |
| UsageSnapshot.BareForbiddenLapses | app/services/key_usage.py:256-303 | the shortest history that breaks the documented rule |
| UsageSnapshot.ObservationIsLastSuccess | app/services/key_usage.py:277-303 | the observation kept is that of the last full success |
| UsageSnapshot.ErrorIsLastPoll | app/services/key_usage.py:277-384 | the error fields are those of the last poll and absent exactly after a success |
| UsageSnapshot.ResumeStampIsHistory | app/services/key_usage.py:376-384 | `resumed_at` is the moment of the latest success that found the verdict lapsed |
| UsageSnapshot.ResumeNeverMovesBack | app/services/key_usage.py:376-384 | once stamped, every later payload resumes at that moment or after |
| UsageSnapshot.ChainStepsForward | app/services/key_usage.py:218-243 | one observation keeps start before end, except a first one past its own reset, and the new start is the previous end exactly when that has come |
| UsageSnapshot.ChainStaysForward | app/services/key_usage.py:218-243 | over any history whose first reset was not past, the chain never runs backwards |
| UsageSnapshot.BoundariesAreReported | app/services/key_usage.py:218-243 | over any history every period of the chain ends at a reset the upstream reported, and starts at one or at the first poll that reported any |
| UsageSnapshot.ObservationLiesInPeriod | app/services/key_usage.py:218-243 | with polls dated in order, after a success that reports a later reset the chain's period has begun and ends at that reset |
| UsageSnapshot.ZeroLengthIff | app/services/key_usage.py:218-243 | from any prior period, the condition on the moment and the reported reset under which the next one has no length |
| UsageSnapshot.ZeroLengthPeriods | app/services/key_usage.py:218-243 | an input for each of the three cases of that condition |
| BillingUnits.ProxyUnits | app/services/billing_units.py:189-262 | the contract query and the nested loops with their seen set return the billed units of every selected contract in order |
| BillingUnits.UnitsAreExact | app/services/billing_units.py:189-262 | the units are exactly those of the recurring contracts of proxy accounts that have begun: per credential or per account, with the first day, the earlier end, and the snapshot's period and verdict |
| BillingUnits.UnitFollows | app/services/billing_units.py:78-113 | a unit has a period exactly when the snapshot is of a success and holds both ends, and it takes the verdict and both stamps from it |
| BillingUnits.UnitsAreBilledCredentials | app/services/billing_units.py:214-246 | a credential becomes a unit exactly when it is live and no earlier live one shows its masked key |
| BillingUnits.EveryLiveKeyIsBilled | app/services/billing_units.py:214-246 | every live masked key is billed, by the first credential that shows it |
| BillingUnits.UnitsHaveDistinctOwners | app/services/billing_units.py:189-262 | with contract ids and credential uuids unique, the units of one moment never share an owner |
| FxRates.ResolutionIsNearest | app/services/fx.py:55-78 | a rate is the day's row, else the nearest earlier one, else the earliest; none only when the currency has no row |
| FxRates.ReadersAgree | app/services/fx.py:91-113 | the plain reader and the resolver give one rate |
| LedgerStore.Store.MaterializePeriodStream | app/db/proxy/billing.py:285-424 | inserting, leaving or freezing the row of one resolved period gives the specified ledger, and the count is zero exactly when nothing changed |
| LedgerStore.Store.FinalizePeriodStream | app/db/proxy/billing.py:426-454 | freezes exactly the priced open rows of the resolved starts |
| LedgerStore.Store.MaterializePeriodCharges | app/db/proxy/billing.py:457-488 | a whole run gives the specified ledger, keeps every recorded fact and every owner's periods disjoint, and reports zero exactly when no charge changed |
| LedgerLaws.MaterializeKeepsFacts | app/db/proxy/billing.py:339-454 | no run alters a recorded period or price, or anything of a frozen charge |
| LedgerLaws.RollForwardIsSound | app/db/proxy/billing.py:115-154 | the next period starts at or after the previous end and the resume stamp, and is nonempty whenever it may be written |
| LedgerLaws.RollForwardIsExact | app/db/proxy/billing.py:115-154 | the next period starts at the latest of the previous end (without one the recently observed start, else that of the anchor period), the resume stamp and, when observed, the first day; it ends at the observed end past that start, else with the anchor period |
| LedgerLaws.LatestIsNewest | app/db/proxy/billing.py:104-114 | the recorded row a resolution looks at is the owner's newest |
| LedgerLaws.UnitOpensAtMostOne | app/db/proxy/billing.py:85-154 | a unit's turn adds at most one row, past every period of its owner |
| LedgerLaws.MaterializeStaysTidy | app/db/proxy/billing.py:307-318 | periods stay nonempty, begun when written and pairwise disjoint at any later moment |
| LedgerLaws.MaterializeOpens | app/db/proxy/billing.py:206-318 | every row a run adds is opened by one of its units: nothing held the unit back, the start and end rules hold, the price is that of the latest effective price event, the amount that price at the nearest stored rate, and it is frozen at once exactly when a rate is known |
| LedgerLaws.RateIsInForce | app/db/proxy/billing.py:272-283 | the price is that of the contract's event effective last up to the start, the newest of one instant, and nothing before the first one |
| LedgerLaws.AmountIsNearest | app/db/proxy/billing.py:206-224 | an amount is the price in CNY, and otherwise the price at the stored rate nearest to the first day; it is unknown exactly when the currency has no rate |
| PeriodRules.TurnOpensExactly | app/db/proxy/billing.py:85-154 | in a tidy ledger a unit's turn adds its next period exactly when its first day has come, nothing holds it back, no recorded period reaches past the moment, and the period starts by the moment and the unit's end |
| PeriodRules.NextPeriodExists | app/db/proxy/billing.py:115-154 | every unit has exactly one next period |
| PeriodRules.TurnSettlesExactly | app/db/proxy/billing.py:339-424 | a unit's turn changes a recorded charge exactly when it is the unit's open one that covers the moment and its amount is known or has a rate; then it is frozen at the moment with that amount |
| PeriodRules.FreezesExactly | app/db/proxy/billing.py:426-454 | the last pass freezes exactly the open charges with a known amount that start with a resolved period, and changes nothing else of them |
| LedgerSettling.RunsReachFixpoint | app/db/proxy/billing.py:104-154 | repeating a run at one moment stops changing the ledger after finitely many runs |
| LedgerSettling.OneRunSuffices | app/db/proxy/billing.py:457-488 | when no unit is about to open a period, a second run changes nothing |
| LedgerSettling.CoveredRunSuffices | app/db/proxy/billing.py:104-114 | once recorded periods cover the moment for every unit, a second run changes nothing |
| BillingRuns.RunsAreSafe | app/db/proxy/billing.py:85-154 | over every run of polls, price changes, rates and materializations the periods of each owner stay disjoint and no recorded fact changes |
| BillingRuns.SnapshotsFollowTheirPolls | app/services/key_usage.py:326-384 | over every run a credential's snapshot is that of its own polls, in their order |
| BillingRuns.RateReplacesItsDay | app/services/fx.py:154-157 | a stored rate replaces that of its currency and day and no other, so that there is always one of each |
| BillingRuns.NothingIsChargedTwice | app/db/proxy/billing.py:307-318 | from an empty ledger no moment is charged twice to one owner |
| BillingRuns.GapIsNeverBilled | app/db/proxy/billing.py:115-145 | after a success at t has ended a lapse, no period of that credential opened later starts before t, observed or anchored |
| BillingRuns.RecoveryStamps | app/services/key_usage.py:376-383 | the poll that ends a lapse stamps its own moment |
| BillingRuns.LapseOpensNothing | app/services/billing_units.py:163-176 | for 48 hours after the latest refusal no period of the credential opens unless a poll succeeds |
| BillingRuns.RefusalLapses | app/services/key_usage.py:306-323 | an entitlement refusal starts such a lapse |
| BillingRuns.BareForbiddenSuspends | app/services/key_usage.py:256-303 | a bare 403 and a time-out suspend a new credential without any refusal |
| BillingRuns.EndedOwnerOpensNothing | app/db/proxy/billing.py:301-318 | once a recorded period reaches past the scheduled end, no run opens another |
| Cancellation.EndIsAhead | app/db/proxy/common.py:122-143 | a scheduled end is never past; it is one second before the recently reported period's end when that is ahead, and otherwise the last second of the current anchor period |
| Cancellation.ScheduleEnds | app/db/proxy/lifecycle.py:60-81 | each running credential keeps its own later end or gets that of its own anchor and snapshot, nothing else of any credential changes, and the contract gets the latest of the ends |
| Cancellation.ContractEndCutsNothing | app/services/billing_units.py:222-224 | the contract's end never cuts a credential short |
| Cancellation.RunsKeepCalendar | app/db/proxy/billing.py:85-154 | an owner without a snapshot and with an unchanged anchor keeps every recorded period on the anchor calendar |
| Cancellation.ScheduledEndClosesPeriod | app/db/proxy/common.py:122-143 | on the anchor calendar a scheduled end is one second before the recorded period's end and not before now |
| Cancellation.ScheduledDeletionIsFinal | app/db/proxy/lifecycle.py:60-81 | after such a schedule no run of any kind opens a following period |
| Cancellation.FollowingPeriodIff | app/db/proxy/billing.py:301-318 | a unit that nothing suspends opens the following period exactly when its scheduled end reaches that far |
| Cancellation.FollowingPeriodOfCredential | app/services/billing_units.py:214-246 | for a credential as the query lists it, the following period opens exactly when the credential ends later than the recorded one, at the exact second too |
| PairUpgrade.Disk.UpgradePair | app/db/schema_upgrade/coordinator.py:214-298 | wherever it stops, the old pair is on disk or one recovery away, or the manifest is complete and both databases are the new ones |
| PairUpgrade.Disk.RecoverManifest | app/db/schema_upgrade/engine_core.py:128-158 | restoring one manifest is never refused for the pending upgrade and, interrupted midway through a copy, leaves it pending |
| PairUpgrade.Disk.Recover | app/db/schema_upgrade/engine_core.py:128-158 | recovery in any listing order puts the pair back; interrupted it stays safe; a second one changes nothing |
| UpgradeRoutes.GoalIsCurrentOrRefused | app/db/schema_upgrade/coordinator.py:404-576 | a start-up that ends has made both databases current, or stopped at a pair a check refuses |
| UpgradeRoutes.RefusedAtOnceIff | app/db/schema_upgrade/coordinator.py:301-490 | two existing files are refused at once, and stay as they are, exactly when both are V0 without a transition, or the token board is not V0 and: one file has a version and the other none, a major is unknown, an export is unfinished and they are not both V2, or both are V2 and either is newer than the program |
| UpgradeRoutes.AcceptedPairGoes | app/db/schema_upgrade/coordinator.py:404-576 | where any other two existing files go: a current pair stays; another V2 pair, or one of two versions, is published once; a V0 pair or one a transition selects is replaced and then published; an unversioned or other V1 pair is migrated in place and then published |
| UpgradeRoutes.SingleV0IsReplaced | app/db/schema_upgrade/coordinator.py:422-481 | a single V0 file is replaced by its shadow first, and the start-up goes on from there |
| UpgradeRoutes.MissingIsCreated | app/db/schema_upgrade/coordinator.py:422-481 | a missing file is created before anything else, the token board first |
| UpgradeRoutes.SampleIsLawful | app/db/schema_upgrade/coordinator.py:404-576 | an engine that meets what the results on routes assume |
| UpgradeRoutes.OldOrNewIffPublishesOnce | app/db/schema_upgrade/coordinator.py:404-576 | every pair a start-up leaves on disk is the old or the final one exactly when its branch publishes at most once |
| UpgradeRoutes.NextStartUpIff | app/db/schema_upgrade/coordinator.py:482-490 | after a death in place the next start-up completes exactly when no unversioned file stands beside a versioned one; otherwise nothing ever changes the pair |
| UpgradeRoutes.FreshStartCanStick | app/db/schema_upgrade/coordinator.py:425-431 | a fresh start is in place; dying between the two migrations leaves a pair the next start-up finishes, dying one operation later one that none finishes |
| UpgradeRoutes.PassageIsOldOrNew | app/db/schema_upgrade/coordinator.py:404-576 | any number of dying start-ups from a pair that publishes once pass through that pair and its goal only |
| UpgradeRoutes.PassageStaysStuck | app/db/schema_upgrade/coordinator.py:486-490 | any number of start-ups from a refused mixed pair leave it as it is |
| PairUpgrade.Disk.MigratePair | app/db/schema_upgrade/coordinator.py:425-427 | two migrations without a manifest, one commit at a time: a death leaves exactly the operations done before it |
| PairUpgrade.Disk.StartUp | app/db/schema_upgrade/coordinator.py:404-576 | recovery and then the branch of the pair: it leaves a pair of the trail, on disk or one recovery away, and the last one unless it died; a pair that is refused at once, a V2 pair newer than the program among them, stays as it is |
| PairUpgrade.Disk.StartUps | app/db/schema_upgrade/coordinator.py:404-420 | over any number of start-ups dying anywhere each goes on from the pair the one before left, and the first to complete leaves both databases current |
| ImportWorker.RunsAreSound | app/services/runtime_tasks.py:98-130 | in every interleaving an accepted unserved trigger has its wake set or an action about to start, the thread exits only on stop, and the deadline is on the grid |
| ImportWorker.StartedWorkerIsSound | app/services/runtime_tasks.py:98-130 | the same from the start of the thread |
| ImportWorker.TriggerIsServed | app/services/runtime_tasks.py:72-129 | unless stop is set, an action starts within ten steps of the worker after an accepted trigger |
| ImportWorker.BrowserPassesAreTriggered | app/services/runtime_tasks.py:98-129 | over any run from the start no more browser passes start than the wake event was set |
| ImportWorker.ScheduledPassServesTriggers | app/services/runtime_tasks.py:119-125 | triggers that come before a scheduled pass starts are satisfied by it: without a further one no browser pass follows |
| ImportWorker.ScheduledPassesKeepCadence | app/services/runtime_tasks.py:98-129 | over any run n scheduled passes take at least n intervals |
| ImportWorker.AcceptedWereChecked | app/services/runtime_tasks.py:72-77 | every accepted trigger had found the worker alive and not stopping |
| ImportWorker.UnservedIsNeverStuck | app/services/runtime_tasks.py:98-129 | while a trigger waits the worker always has a next step |
| ImportWorker.AcceptedIsUnserved | app/services/runtime_tasks.py:72-81 | an accepted trigger stays unserved until an action starts |
| ImportWorker.DeadlineMovesOnlyAfterScheduledPass | app/services/runtime_tasks.py:98-129 | only a scheduled pass moves the deadline, to the first grid point past the clock reading |
| ImportWorker.DuePassIsNotPostponed | app/services/runtime_tasks.py:98-129 | browser triggers cannot postpone a due pass |
| ImportWorker.TimeoutStartsScheduledPass | app/services/runtime_tasks.py:98-129 | a wait that times out is followed by the scheduled pass, whatever triggers arrive |
| ImportWorker.BumpDeadline | app/services/runtime_tasks.py:127-129 | the loop stops at the first grid point after now |
| UsageArchive.RoundingIsHalfUp | app/db/dashboard/writer.py:20-25 | rounding moves an amount by at most half a micro, a tie away from zero, is odd, and keeps the sign |
| UsageArchive.UpsertAdds | app/db/dashboard/writer.py:155-172 | an upsert adds its counts to one cell and to no other |
| UsageArchive.UpsertKeepsUnique | app/db/dashboard/writer.py:155-172 | one cell per user, day and model |
| UsageArchive.ZeroCellsHoldNothing | app/db/dashboard/writer.py:248-260 | deleting the all-zero cells changes no cell's counts and no total |
| UsageArchive.Archive.UpsertUsageRows | app/db/dashboard/writer.py:194-207 | a batch is booked whole, or not at all exactly when a row names no ordinary user and is not an unnamed row of a stored one |
| UsageArchive.ArchiveMovesCounts | app/db/dashboard/writer.py:98-128 | archiving moves a user's counts to user 0, day by day and model by model, and touches no other user |
| UsageArchive.ArchiveMovesSpending | app/db/dashboard/writer.py:119-128 | archiving moves what a user has spent to user 0, when there is one, removes the user, and changes no other user's cost |
| UsageArchive.ArchiveConservesDays | app/db/dashboard/writer.py:98-128 | archiving changes no total of any day and model |
| UsageArchive.ArchiveConservesCost | app/db/dashboard/writer.py:119-128 | archiving conserves the total actual cost exactly when the archive user exists or nothing was spent |
| UsageArchive.ArchiveKeepsUnique | app/db/dashboard/writer.py:98-128 | archiving keeps one cell per user, day and model |
| UsageArchive.Archive.ArchiveUsers | app/db/dashboard/writer.py:75-134 | archiving a list is refused whole exactly when an id is not positive, and otherwise archives each existing user in turn and returns the number of their cells |
| UsageExport.GroupingConserves | app/db/proxy/export.py:68-90 | grouping by date, account and model loses and invents nothing |
| UsageExport.CellErrorIsBounded | app/db/dashboard/writer.py:20-25 | after k booked groups a cell's cost is within k/2 micro of the exact sum |
| UsageExport.WindowsAdd | app/db/proxy/export.py:76 | consecutive mark windows partition what one window counts |
| UsageExport.WindowIsFresh | app/db/proxy/export.py:26-34 | an export counts exactly the rows between the greatest acknowledged bound and its own, even when the stored mark has moved back |
| UsageExport.RunsShowOneExport | app/db/proxy/export.py:192-206 | however logging, exports, failures, clean-ups and archivings alternate, every day and model shows the tokens and requests of one export, and a cost within half a micro per booked group |
| UsageExport.RunsKeepCellsExact | app/db/dashboard/writer.py:139-179 | the same error bound for each single cell, followed through archiving |
| UsageExport.MarkMovesBackIff | app/db/proxy/export.py:266-273 | an export stores a smaller mark exactly when the mark is positive and every id still in the log is below it |
| UsageExport.MarkCanMoveBack | app/db/proxy/export.py:266-273 | a clean-up that empties the log leads to the mark 0, and one that keeps an older row to that row's id |
| UsageExport.Exporter.ExportToDashboard | app/db/proxy/export.py:60-119 | books the grouped window, or nothing when the batch is refused |
| UsageExport.Exporter.Sync | app/services/sync/dashboard_sync.py:375-379 | a whole export is the bound, booking, mark and clean-up steps of the state machine |
| AccountUsage.GroupingByAccount | app/db/proxy/export.py:68-90 | each account, day and model has at most one group, with the tokens, requests, cost and bill of exactly its rows |
| AccountUsage.RunsShowTheAccount | app/db/dashboard/writer.py:155-190 | over any run the cell of an account never archived shows the tokens and requests of exactly its own successful, named, acknowledged rows, and their cost within half a micro per booked group |
| AccountUsage.RunsBillTheAccount | app/db/dashboard/writer.py:139-179 | and its actual cost has grown by what these rows were billed, within half a micro per group |
| AccountUsage.ExportAcknowledgesIff | app/db/proxy/export.py:60-119 | an export acknowledges its bound unless it would count a row of no ordinary account; then nothing moves |
| AccountUsage.ArchivingMovesTheAccount | app/db/dashboard/writer.py:75-134 | in the life of exports archiving a stored account moves its cells and its spending to the archive user and touches no other account |
| ExportEvents.InsertedIff | app/db/proxy/billing_export.py:54-96 | an insertion raises unless the source's event states the same fact or both keys are free; the event-key lookup can only refuse |
| ExportEvents.InsertKeepsUnique | app/db/proxy/billing_export.py:54-96 | source keys and event keys stay unique by code alone |
| ExportEvents.RunAppendsMissing | app/db/proxy/billing_export.py:190-262 | a run that does not raise appends exactly the rows without an event, verbatim and in order, and alters no event |
| ExportEvents.EveryRowHasItsEvent | app/db/proxy/billing_export.py:190-262 | afterwards each row has exactly one event of its source, stating the same fact |
| ExportEvents.RunSucceedsIff | app/db/proxy/billing_export.py:66-83 | a run raises exactly when a row changes the fact of its event or takes a used event key |
| ExportEvents.RenamingIsAcceptedIff | app/db/proxy/billing_export.py:20-51 | a rename is accepted exactly when the event's unit is the row's own or the name is unchanged |
| ExportEvents.SecondRunAddsNothing | app/db/proxy/billing_export.py:190-262 | a second run over the same facts adds nothing, and raises exactly when an account behind a legacy unit was renamed |
| ExportEvents.RenamedLegacyUnitRaises | app/db/proxy/billing_export.py:25-51 | a stored V1 event, its allocation accepted under the new unit, and the same allocation refused after a rename |
| EventSources.SourcesAreDistinct | app/db/proxy/billing_export.py:198-260 | the three scans give no two rows of one source |
| EventFacts.EveryFactHasOneEvent | app/db/proxy/billing_export.py:104-262 | after a run that does not raise, each finalized proxy charge of a proxy identity, each finalized agent charge of its own software and each finalized share of a finalized ownerless one has exactly one event, stating its key, unit, account, period and money; every further event states such a fact, and the earlier events are untouched |
| EventSources.SnapshotsFixRows | app/db/proxy/billing_export.py:104-187 | with snapshots, deleting contracts, subscriptions or instances changes no event row |
| EventSources.EventLog.EnsureEvents | app/db/proxy/billing_export.py:190-262 | the three insertion loops compute that run, return the number of new events, and leave the log alone when they raise |
| LedgerEvents.LedgerRunSucceedsIff | app/db/proxy/billing_export.py:54-96 | an event run over a ledger whose events state its frozen charges raises exactly when two of these share an event key |
| LedgerEvents.RunsNeverChangeFacts | app/db/proxy/billing.py:457-488 | over any run of polls, materializations, price, rate and account changes and event runs, every event still states its charge, so no later event run raises over a changed fact |
| LedgerEvents.TidyLedgerHasDistinctKeys | app/db/proxy/billing_export.py:190-215 | in a tidy ledger with legible starts whose credentials keep their contract no two frozen charges share an event key |
| LedgerEvents.CanonicalIsLegible | app/core/time.py:42-46 | starts of the years 0 to 9999 in canonical text are legible |
| LedgerEvents.CanonicalRunsNeverRaise | app/db/proxy/billing.py:457-488 | over any run from a tidy ledger with canonical starts and credentials that keep their contract the next event run does not raise |
| LedgerEvents.ConsecutiveChargesAreExported | app/db/proxy/billing_export.py:190-215 | two consecutive frozen periods of one credential meet all of these requirements and get their two events |
| LedgerEvents.FrozenChargeIsExported | app/db/proxy/billing_export.py:104-215 | after an event run that does not raise, every frozen charge of a proxy account has exactly one event, which states its owner, start, price, amount and rate day |
| LedgerEvents.Materializer.MaterializePeriodCharges | app/db/proxy/billing.py:457-488 | charges and events together: rolled back whole when the event run raises, otherwise both as specified and a count that is zero exactly when neither changed |
| EventBooking.EventsAreBookedOnce | app/db/proxy/export.py:121-133 | over any run of insertions, event windows and archivings the dashboard's total cost has grown by each event at or below the mark exactly once |
| EventBooking.EventsBillTheirAccount | app/db/dashboard/writer.py:209-230 | over any such run the cost of an account never archived has grown by the cost of exactly its own events at or below the mark, within half a micro for each |
| EventBooking.EventsAreAcknowledgedIff | app/db/dashboard/writer.py:209-230 | a window is booked and acknowledged unless an event with a cost names a user that cannot be created; then nothing moves |
| Bindings.FormSetsOwnership | app/db/proxy/agent_subscriptions.py:449-518 | with no future-dated start, who owns what on every date after a form: the past as before, from today on the software owns exactly its list and the others what is not on it |
| Bindings.MovingEndsOwnership | app/db/proxy/agent_subscriptions.py:437-443 | a deferred deletion keeps the past and lets today's owner keep the subscription until the end |
| Bindings.FormsOutliveDeletion | app/db/proxy/agent_subscriptions.py:437-518 | after a deferred deletion and any later edits a software owns the subscription past the end exactly when it claimed it last and has not dropped it |
| Bindings.FormBeforeTheEndIsAccepted | app/db/proxy/agent_subscriptions.py:468-477 | a form listing a subscription with a scheduled end is accepted exactly before that end, and owns it past the end |
| Bindings.FormKeepsUnique | app/db/proxy/agent_subscriptions.py:502-517 | the insert never breaks the unique constraint |
| Bindings.PruningDropsEnded | app/db/proxy/lifecycle.py:162-163 | a finalizer pass drops exactly the ownership that rests on intervals ended before today and changes nothing from yesterday on |
| Bindings.EndedTodayIsForgotten | app/db/proxy/lifecycle.py:162-163 | what a form ends today is known through today's passes and forgotten, with its whole past, by the first pass of a later day |
| Bindings.RunsKeepOneOwner | app/db/proxy/agent_subscriptions.py:449-518 | over any timely run of forms, deferred deletions and finalizer passes at most one software owns a subscription on every date, starts stay unique, and no earlier date gets another owner; without a pass it keeps its own |
| Bindings.BindingTable.ReplaceBindings | app/db/proxy/agent_subscriptions.py:449-518 | refuses exactly the unknown, ended or malformed ids with no change, and otherwise computes the specified rows |
| Bindings.BindingTable.EndMissing | app/db/proxy/agent_subscriptions.py:485-492 | ends the unlisted rows whatever order the set is walked in |
| CostReport.PurgeKeepsMetered | app/db/proxy/deletion.py:102-119 | no purge changes a metered figure |
| CostReport.PurgeAccountsForFigures | app/services/billing_report.py:50-139 | every figure after a purge is the figure before less exactly the charges that only deleted contracts attributed |
| CostReport.PurgesKeepFigures | app/db/proxy/deletion.py:67-137 | with identity snapshots no sequence of purges changes any figure of any window or day |
| CostReport.PurgeKeepsTotalIff | app/db/proxy/deletion.py:130-134 | without them, a window's total survives exactly when no reported charge with a cost in it hangs on a live contract of the account |
| CostReport.ProxyTables.PurgeProxyAccount | app/db/proxy/deletion.py:79-137 | the ordered updates and deletes have the specified effect on requests and live rows |
| CostReport.ProxyTables.PurgeCredentialRow | app/db/proxy/deletion.py:67-76 | detaches the credential's requests and deletes the credential |
| CostReport.ProxyTables.PurgeAgentSubscription | app/db/proxy/deletion.py:166-198 | deletes the subscription's live graph, or nothing when it does not exist |
| CostFacts.FiguresAreSums | app/services/billing_report.py:36-139 | the figures of a window are the sums over exactly the rows that count: requests of a known account, finalized priced charges of a credential and a proxy account, finalized priced agent charges of known software, and shares of finalized ownerless ones |
| CostFacts.DaysAreSums | app/services/billing_report.py:171-217 | the figures of a day are these sums over the rows of the day |
| CostFacts.PurgeRemovesExactly | app/db/proxy/deletion.py:38-198 | which live rows each purge removes and which it keeps, and which references a request loses; charges, allocations and identities stay |
| CostFacts.PurgesKeepReferences | app/db/proxy/deletion.py:23-198 | no sequence of purges leaves a request or a live row that refers to a removed one |
| CostByDay.GroupsAreDays | app/services/billing_report.py:178-182 | the groups are the days of the rows, each once, with the day's sum |
| CostByDay.ActualCostByDay | app/services/billing_report.py:171-217 | an entry for exactly the days with an attributed row, with that day's figures, summing to the total of the window |
| CostByDay.FiguresSumOverDays | app/services/billing_report.py:108-139 | the days of a window sum to its metered and recurring figures |

## Left out

- HTTP, JSON text, file reading and timestamp parsing: a poll gives an abstract reply, a log a sequence of parsed lines, and parsed timestamps are parameters.
- Stopping a merge through its stop event: it only raises early.
- `_window_state`, `_percent` and `parse_usage_body`: single-branch classification of one window; a complete reply stands for a body that passes them.
- Agent subscriptions in the materializer and the `current_only=False` chain, which no caller asks for: the same stream code over another table.
- LedgerStore.Store.MaterializePeriodCharges: the count leaves out the export events the original also ensures; LedgerEvents.Materializer.MaterializePeriodCharges counts them.
- Cancellation.FollowingPeriodIff: takes the unit as resolved, although the credential query already drops a unit at the exact second of its end; Cancellation.FollowingPeriodOfCredential covers the listing.
- PairUpgrade.Disk.UpgradePair: the write-ahead files, the configuration snapshot, versioned backup aliases and the work directory are not on the modelled disk; only the two databases, their backups and the manifests are.
- PairUpgrade.Disk.StartUp: assumes that opening a missing database creates its file without a version, and that the engine's results are what `UpgradeRoutes.Lawful` says; what the engine itself may refuse while building shadows is a death before publication here.
- The compound transition strategies: the same manifest protocol with further side files; transition plugins and SQL migration bodies are parameters.
- Other writers to the databases during an upgrade, and the file locks that exclude them.
- ImportWorker.TriggerIsServed: counts steps of the worker and assumes it keeps being scheduled; health records and the action itself are left out.
- UsageExport.RunsShowOneExport: takes from the sync code that marks advance only after the archive is installed; uploading and the candidate archive of other machines are left out.
- UsageExport.Exporter.ExportToDashboard: the events of the same call are booked in EventBooking, with a mark of their own.
- UsageExport.Exporter.Sync: the billing window of the same pass; EventBooking.EventsAreBookedOnce runs it.
- EventBooking.EventsAreBookedOnce: user names and the payload hash, which the two-table dashboard ignores.
- Bindings.FormsOutliveDeletion: a second deferred deletion of the same subscription; and the finalizer, which deletes the subscription after its end, takes its intervals with it.
- Bindings.RunsKeepOneOwner: hard deletions of a software or subscription and configuration merges from another machine are not edits.
- CostReport.PurgeKeepsTotalIff: assumes costs are not negative; otherwise lost charges could cancel out.
- CostReport.ProxyTables.PurgeCredentialRow: request attempts and secrets, which no report reads.
- CostReport.ProxyTables.PurgeProxyAccount: route rules, secrets, request attempts, rate events and importers, which no report reads.
- CostReport.ProxyTables.PurgeAgentSubscription: rate events, which no report reads.
- `FxRateResolver.ensure` and `ensure_rate`: fetching a rate is a new rate row.
- Floating-point rounding: prices, costs and rates are real numbers.
- The spelling of JSON numbers: 1 and 1.0 are one value here, although their fingerprints differ.
- Pricing reorder, performance tables, the cost allocator and account types: single-branch facts.
