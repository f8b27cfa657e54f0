# Hupi: a model of its hardest protocols, with proofs

Hupi keeps a person's conversations as encrypted episodes, condenses them into
daily, weekly, monthly and yearly summaries, and lets a scope rotate its keys,
export itself and be loaded elsewhere while all of that goes on. This project
models the parts of it that hold state, interleave or calculate, and proves what
they promise. `dafny verify dfyconfig.toml` checks everything.

## How the model is laid out

* **Key rotation.** `FieldCrypto`, `KeyVersions`, `RowTables`: ciphertexts, the
  key store with its per-process cache, and the encrypted rows with what one
  migration transaction does to them. `RotationProtocol` makes every transaction
  or single query one step of a state machine with any number of processes,
  writers, Start, Continue and Prune calls and re-embedding readers, any of which
  may be lost after any step; a stalled Continue may act on a later rotation's
  row. `RotationSafety` has the invariant, `RotationTheorems`, `RotationReaders`
  and `RotationProgress` the results over whole runs, `PruneSafety` and
  `PruneHazard` exactly when Prune is safe, `RotationCompletion`,
  `CompletionHazards` and `CompletionExact` what "completed" means beside writers and
  other calls, and exactly when it can be trusted. `RotateRunner` has the operations one call at a
  time, with their loops, and the driver that rotates to completion;
  `RotationCalls` shows them to be calls of the step protocol that nothing
  interrupts.
* **Summary chains and rollups.** `SummaryChains` is the append-only table,
  `SummaryRuns` everything that adds to it, interleaved. `RollupCascade` and
  `RollupStaleness` are the mutual recursion that re-runs rollups, under both of
  the program's readings of "current", `DailyRuns` what a call leaves row by row,
  `RollupRuns` whole histories of it;
  `SummaryRunner` has the operations as methods on the table, and `SummaryCalls` shows
  the whole cascade to be a run of `SummaryRuns`. `SummaryTimes` puts those runs on one
  clock.
* **The rollup calendar.** `Calendar` (Gregorian dates, and the week date of
  ISO 8601:2004, section 4.1.4), `RollupCalendar` (which rollups are due when),
  `Decimals` and `PeriodLabels` (printing and reading period labels).
* **Topic clustering.** `UnionFind` and `TopicClusters`.
* **The demo's caps.** `RateLimiter`; `DemoSessions`, its statements as steps and its
  operations as methods, which `DemoCalls` ties together; `DemoPromises` and
  `DemoBackstop`, what every run of them keeps.
* **Bundles.** `BundleImport`, `BundleMerge`, `BundleReferences`, `BundleRoundTrip` and
  `BundleOrder`: loading a bundle, loading it again, where its references lead, and a
  table of summaries on its way from one scope to another.
* **Texts.** `TextArrays` (Postgres array literals) and `JsonScan` (the first
  object in a model's answer, against RFC 8259, sections 2 to 7).
* **Relationships.** `Relationships`, the dated edges between entities.

Code that updates state in place is a class or a method with the source's loops,
proved against a function that says what it computes; what the source promises is
then proved about that function. Protocols are step functions, and their promises
are lemmas over every run.

## Where the code does not keep a promise

Each of these is kept as the code has it, with a run or an input that shows it and
the exact condition under which the promise holds.

* **Prune cannot see writers in flight.** Its count and its delete see committed
  rows only. A prune about to count is safe exactly when its count will refuse, or
  no in-flight writer holds, or is about to create, a version below the one it
  keeps (`PruneSafety.PruneSafeIffNoLowWriter`). The status flag plays no part. A
  slow first writer stores version 1 a second time after the prune
  (`PruneSafety.LateCreatorReusesVersionOne`), and a run from the beginning leads
  there (`PruneHazard.UnsafePruneIsReachable`). The safety theorems therefore
  assume that a prune's count does not overtake such a writer, and nothing else.
* **"Completed" can be wrong.** A rotation that has just started is sure to leave no
  row on its old version if and only if no writer in flight still holds that version
  and either nothing is on it or no Continue of another rotation, one that could go on,
  is in flight (`CompletionExact.CompletesEmptyIff`); then no row ever is again
  (`RotationCompletion.CompletedLeavesNothing`). A run from the beginning has a stalled
  Continue mark the next rotation completed at once
  (`CompletionHazards.StaleContinueCompletesWrongly`).
* **The driver's total is not the backlog.** An entity that a writer merges in the
  meantime leaves the old version uncounted: what the batches report and what merges
  took add up to the backlog (`RotationCompletion.CompletedTotals`). The total is sure
  to be the backlog if and only if no entity is on the old version
  (`CompletionExact.ReportsAllIff`).
* **Rollups do not notice superseded sources.** `rollupIsStale` and
  `refreshRollupsCovering` ask for `supersedes is null`, the first row of a chain,
  while the comments, and every other query, mean the last. With the last, nothing
  is left stale. With the first, a new summary leaves nothing stale exactly when no
  rollup covers it or, if it is the first of its period, when no rollup covers a
  rollup that covers it (`RollupStaleness.CodeLeavesFreshIff`). A correction by hand
  refreshes nothing at all, so it leaves nothing stale exactly when no rollup covers
  what it corrects (`RollupStaleness.CorrectionAloneLeavesFreshIff`).
* **Two overlapping first runs fork a period.** The unique index covers rows that
  supersede something. A period is one chain exactly when no row that supersedes
  nothing is stored beside others (`SummaryRuns.LinearIffNoSecondChain`,
  `SummaryRuns.OverlappingFirstRunsFork`).
* **Feedback episodes share the empty hash**, so an import keeps one of them
  (`BundleMerge.AllEpisodesKeptIff`, `BundleReferences.OneRemarkIsKept`).
* **An imported remark can lose its episode.** A reference to an episode that the
  scope already has under another id keeps the exported id, which is another scope's
  row, or none, and then the import fails (`BundleReferences.ReferenceLeadsHomeIff`,
  `BundleReferences.EpisodesLoadIff`, `BundleReferences.RemarkOnRenamedEpisode`).
* **Exports follow created_at**, the time a transaction began. Versions survive export
  and import, in whatever order the query gives equal times, exactly when later
  versions have later times (`BundleOrder.QueryKeepsVersionsIff`). On one clock no link
  is ever lost and only a period with a second chain can exchange versions
  (`SummaryTimes.ExportsOnOneClock`, `SummaryTimes.ForkedRunsExchange`); a summary
  imported from a machine whose clock is ahead and then corrected loses its link
  (`SummaryTimes.FastClockUnlinks`).
* **A demo session can fail in good standing.** A sweep may clear its guest before it
  expires; the failing calls still count as messages
  (`DemoPromises.MessagesAreAttempts`). With a backstop that all sweeps are asked for, no
  session in good standing ever fails if and only if its lifetime is at most one tick of
  the clock above the backstop, or no session could answer in any case
  (`DemoBackstop.NeverFailsIff`).
* **A relationship batch can swap back and forth.** Two objects for one subject and
  predicate from the same date on change places each time
  (`Relationships.TwoObjectsSwap`). A batch does nothing the second time exactly when
  no edge that it adds closes another edge of the batch that does not come again after
  it (`Relationships.TwiceIsOnceIff`).
* **ConsolidateNow can give the wrong reason** at the very moment a session expires
  (`DemoPromises.WrongVerdictIff`, `DemoPromises.WrongVerdictIsReachable`).

## Model

| member | source | states |
|---|---|---|
| KeyVersions.KeyStore.GetOrCreate | internal/crypto/keystore.go:75-91 | the key answered is the newest stored version, created as version 1 where there is none; a cache that agreed with the table still does |
| KeyVersions.KeyStore.GetVersion | internal/crypto/keystore.go:97-121 | answers from the cache, else from the table, else not found; a found key is cached |
| KeyVersions.KeyStore.CreateVersion | internal/crypto/keystore.go:162-185 | an insert that loses the race leaves the stored key alone, and what is cached is the stored key, never the loser |
| KeyVersions.KeyStore.CreateNextVersion | internal/crypto/keystore.go:145-154 | an error exactly without a key; otherwise one new version above all others, all older ones untouched |
| RotationSafety.StepKeepsInv | internal/rotate/rotate.go:119-656 | every step of writers, rotations, prunes, readers, restarts and crashes keeps the invariant behind the results below |
| RotationTheorems.EveryRowReadable | internal/rotate/rotate.go:243-403 | in every state of every run each row opens under its own recorded version to what was last written to it |
| RotationTheorems.OnlyCommitsChangeText | internal/rotate/rotate.go:324-572 | no step but a writer's commit changes what any row says, and no row disappears |
| RotationTheorems.PruneDeletesOnlyUnreferenced | internal/rotate/rotate.go:591-656 | across the gap between its count and its delete, Prune deletes no version a row records and keeps the newest |
| PruneSafety.PruneSafeIffNoLowWriter | internal/rotate/rotate.go:604-631 | whatever follows a prune's count every row stays readable, if and only if the count refuses or no in-flight writer is below the kept version |
| PruneSafety.LateCreatorReusesVersionOne | internal/crypto/keystore.go:75-91 | a process that saw no key and is slow stores version 1 again under another key after a prune |
| PruneHazard.UnsafePruneIsReachable | internal/rotate/rotate.go:591-656 | a run from the empty scope reaches a prune that passes its checks and is unsafe |
| RotationTheorems.CachesAgree | internal/crypto/keystore.go:156-185 | any two processes that hold a key for a version at any two moments hold the same key |
| RotationTheorems.VersionsAreNeverReused | internal/rotate/rotate.go:622-628 | a deleted version never comes back, a kept one keeps its key, and the newest version only grows |
| RotationTheorems.StartReturnsTheNewestPair | internal/rotate/rotate.go:151-202 | what Start returns is the rotation in progress, from the version just below the newest to the newest |
| RotationTheorems.OverlappingStartsAgree | internal/rotate/rotate.go:104-159 | Start calls within one rotation all return the same pair |
| RotationTheorems.FactsOpenWithParentKey | internal/rotate/rotate.go:445-514 | a key fact always records its summary's version and opens under the summary's key |
| RotationTheorems.StaleParentKeyOpensFactIffUnmoved | internal/consolidation/runner.go:496-526 | a summary's key fetched earlier opens a fact read later exactly when the summary has not moved in between |
| RotationReaders.ReaderReturnsOneMoment | internal/reembed/reembed.go:197-247 | decryptWithRetry returns the texts its row held at one single moment of the call, or an error |
| RotationReaders.ReaderSucceeds | internal/reembed/reembed.go:197-220 | it returns texts whenever at most one prune deletes keys between its batch read and its answer |
| RotationReaders.ReaderFails | internal/reembed/reembed.go:197-220 | it fails only after the key of the version first read was not found, and the row, read again, was gone, or still on that version, or on another whose key was not found either |
| RotationProgress.MovingBatchesAreBounded | internal/rotate/rotate.go:264-289 | once no writer holds an older version, the batches that can still move rows are bounded by the distance of the rows from the newest version, whatever runs beside them |
| RotationCompletion.CompletedLeavesNothing | internal/rotate/rotate.go:243-322 | in every run, whatever runs beside it: with no writer left on the old version, and no other rotation's Continue that could go on, when Start stored the rotation, no row of any table is on that version from its completion on |
| RotationCompletion.CompletedTotals | cmd/hupi-rotate-key/main.go:79-92 | from Start to the completion, what all Continue calls report and what merges took off the old version add up to the backlog Start found |
| RotationCompletion.CompletedCounts | internal/rotate/rotate.go:264-294 | the same from any state of the rotation in which no row the cursors have passed is on the old version |
| CompletionExact.CompletesEmptyIff | internal/rotate/rotate.go:291-322 | completion of a rotation that has just started is sure to leave nothing on the old version if and only if no writer in flight holds that version and either nothing is on it or no other rotation's Continue that could go on is in flight |
| CompletionHazards.CompletesEmptyIffNoWriter | internal/rotate/rotate.go:291-322 | without such a Continue: if and only if no writer in flight holds that version, whatever rotations before left behind |
| CompletionHazards.StaleContinueCompletesWrongly | internal/rotate/rotate.go:297-322 | a run from the beginning in which a Continue of one rotation completes the next, with a row on its old version |
| CompletionExact.ReportsAllIff | cmd/hupi-rotate-key/main.go:79-92 | from every such state, what the Continue calls report is sure to be the backlog if and only if no entity is on the old version |
| CompletionHazards.TotalFallsShort | cmd/hupi-rotate-key/main.go:79-92 | with an entity on the old version, a run to completion whose batches report fewer rows than there were |
| CompletionHazards.Drive | cmd/hupi-rotate-key/main.go:79-92 | from any state of a rotation in progress the driver alone reaches the step that completes it |
| RotationCalls.ContinueIsItsSteps | internal/rotate/rotate.go:243-295 | a Continue call whose steps nothing interrupts leaves the rows and the rotation that Runner.Continue promises, failures included |
| RotationCalls.StartIsItsSteps | internal/rotate/rotate.go:119-202 | likewise Start, by a call that gets the lock |
| RotationCalls.PruneIsItsSteps | internal/rotate/rotate.go:591-656 | likewise Prune, with the keys deleted and evicted |
| RotateRunner.Runner.Start | internal/rotate/rotate.go:119-202 | a rotation in progress is returned unchanged; otherwise the next version is created and the rotation row reset, or there is no key and nothing changes |
| RotateRunner.Runner.MigrateKeyFacts | internal/rotate/rotate.go:471-514 | moves exactly the summary's facts that are on the old version, or fails when one does not open |
| RotateRunner.Runner.MigrateBatch | internal/rotate/rotate.go:324-572 | the first rows by id on the old version, with a summary's facts, are sealed again column by column, a NULL note staying NULL; nothing else is touched; a row that does not open rolls the batch back |
| RotateRunner.Runner.Continue | internal/rotate/rotate.go:243-295 | one batch, of the clamped size, of the next table with rows left, or completion, or the error paths, with rows, cursor, status and answer spelled out |
| RotateRunner.ContinueMakesProgress | internal/rotate/rotate.go:264-294 | a call fails, or takes exactly as many rows off the backlog as it reports, or reports done exactly with an empty backlog; no text changes |
| RotateRunner.Runner.RotateToCompletion | cmd/hupi-rotate-key/main.go:72-94 | alone, the driver ends; its total is the backlog at the start, no row is left on the old version, no text has changed |
| RotateRunner.Runner.Prune | internal/rotate/rotate.go:591-656 | refuses exactly without a completed rotation or with a row below its new version; otherwise deletes exactly the older versions, evicts them and counts them |
| RowTables.FirstIdsAreLeast | internal/rotate/rotate.go:333-337 | a batch takes the least ids: none left out is below one taken |
| SummaryChains.AsManyTipsAsRoots | internal/consolidation/runner.go:906-930 | a period has as many current rows as it has rows that supersede nothing |
| SummaryChains.LinearIffOneRoot | internal/consolidation/runner.go:917-930 | a period is one chain exactly when at most one of its rows supersedes nothing |
| SummaryChains.LinearHasOneTip | internal/consolidation/runner.go:917-930 | a chain has one current row, the highest version, and that is what currentSummaryID finds |
| SummaryRuns.VersionsAndTips | internal/consolidation/store.go:296-323 | in every interleaving versions are 1..n without gap or repeat, and no row is superseded twice |
| SummaryRuns.LinearIffNoSecondChain | internal/consolidation/runner.go:119-197 | after any run a period is one chain exactly when no step stored a row that supersedes nothing beside others |
| SummaryRuns.SerialRunsStayLinear | internal/consolidation/store.go:280-323 | runs that take turns per level and period, and in-order imports, keep one chain with one current row, its highest version |
| SummaryRuns.OverlappingFirstRunsFork | internal/consolidation/runner.go:88-197 | two first runs of a period that overlap leave two current rows |
| SummaryRuns.OnlyCurrentIsCorrected | internal/consolidation/runner.go:388-423 | in every run a correction that begins has a current row as its target and a reason, or is none |
| SummaryRuns.OneCorrectionWins | internal/consolidation/runner.go:393-423 | of two corrections of the same row exactly one is stored |
| SummaryCalls.CallsAreRuns | internal/consolidation/runner.go:88-230 | whatever a call does, cascade and corrections included, is one of the interleavings that the results above speak of |
| RollupStaleness.RunDailyLeavesFresh | internal/consolidation/runner.go:199-230 | reading the last row as current, a day's summary and whichever corrections follow from it leave no rollup older than any of its current sources |
| RollupStaleness.RunRollupKeepsFresh | internal/consolidation/runner.go:686-743 | so does any rollup, new or regenerated |
| RollupStaleness.CorrectThenRefreshLeavesFresh | internal/consolidation/contradiction.go:343-356 | a correction succeeds exactly on a current row with a reason, changes nothing otherwise, and with the refresh leaves nothing stale |
| RollupRuns.SerialCallsLeaveNothingStale | internal/consolidation/runner.go:748-831 | reading the last row as current: after any days, rollups and corrections since the beginning, in any order, no current rollup is older than a current source and every period is one chain |
| RollupStaleness.CorrectionAloneLeavesFreshIff | cmd/hupi-correct/main.go:97-112 | a correction by hand, which refreshes nothing, leaves nothing stale exactly when no rollup covers what it corrects |
| RollupStaleness.ReadingsAgreeIffOneVersion | internal/consolidation/runner.go:753-758 | the two readings of current agree on a period exactly when it has at most one version |
| RollupStaleness.CodeLeavesFreshIff | internal/consolidation/runner.go:791-831 | the code's cascade is complete exactly when no rollup covers the new summary or, for a first one, none covers a rollup covering it |
| RollupStaleness.FirstSummaryRegeneratesCovering | internal/consolidation/runner.go:199-221 | a period's first summary, however late, regenerates every existing rollup that covers it |
| RollupStaleness.SecondDailyLeavesWeekStale | internal/consolidation/runner.go:748-762 | summarise a day, roll up its week, summarise the day again: the week stays stale |
| SummaryRunner.SummaryTable.IsStale | internal/consolidation/runner.go:748-762 | the maximum over the sources and one strict comparison decide whether some source of the level below that supersedes nothing is newer |
| SummaryRunner.SummaryTable.RunRollup | internal/consolidation/runner.go:686-743 | a rollup that is there and not outdated, or has no current source, changes nothing; otherwise the next version is stored over it, or the call fails, and only rollups above it follow |
| SummaryRunner.SummaryTable.RefreshRollupsCovering | internal/consolidation/runner.go:791-831 | every rollup of the level above that lists the period and supersedes nothing has its turn, a failed one not stopping the rest |
| SummaryRunner.SummaryTable.RunDaily | internal/consolidation/runner.go:88-230 | without episodes nothing; otherwise the day's next version over whatever was current, and then a turn for each summary found contradicted; every other row added is a rollup above one of these |
| DailyRuns.ContradictedAreCorrected | internal/consolidation/contradiction.go:227-356 | each of them that is current at its turn and whose store works ends with exactly one successor, of the same period and sources; the others gain none in their turn |
| DailyRuns.RunDayIsDone | internal/consolidation/runner.go:88-230 | the specification of RunDaily leaves the table as described, for both readings of current |
| SummaryRunner.SummaryTable.CheckContradictions | internal/consolidation/contradiction.go:227-356 | every listed summary has its turn, a correction that fails not stopping the rest |
| SummaryRunner.SummaryTable.Correct | internal/consolidation/runner.go:388-468 | an empty reason, an unknown or a superseded row, or a failed store is an error and changes nothing; otherwise one row is added, the next version over it |
| Calendar.YearStartClosedForm | internal/store/temporal.go:116-119 | adding up year lengths gives the closed form of the Gregorian calendar |
| Calendar.WeekStartInverts | internal/store/temporal.go:104-119 | isoWeekStart of a day's ISO year and week is the Monday of its week |
| Calendar.WeekOfWeekStart | internal/consolidation/period.go:63-71 | and ISO year and week of isoWeekStart are the ones given, exactly for the weeks the year has |
| RollupCalendar.DueRollups | cmd/hupi-consolidate/rollup.go:24-36 | exactly the weekly, monthly and yearly jobs of the date, one of a level at most, in that order |
| RollupCalendar.EverythingDueOnce | cmd/hupi-consolidate/rollup.go:24-102 | over the answers of all dates, every day, every ISO week and every month is a source of exactly one job, and once in it: that of its week, its Monday's month, its year |
| RollupCalendar.SourcesInOrder | cmd/hupi-consolidate/rollup.go:41-102 | a job's sources are the week's seven days, the month's Mondays, the year's twelve months, in order and nothing else |
| RollupCalendar.DayRolledUpOnce | cmd/hupi-consolidate/rollup.go:41-57 | every day is a source of exactly one weekly rollup, that of its week, once |
| RollupCalendar.WeeklyJobOf | cmd/hupi-consolidate/rollup.go:45-56 | on the Monday after a day's week that rollup is due, named for the day's ISO week |
| RollupCalendar.WeekRolledUpOnce | cmd/hupi-consolidate/rollup.go:64-84 | every ISO week is a source of exactly one monthly rollup, that of its Monday's month, once |
| RollupCalendar.MonthlyJobOf | cmd/hupi-consolidate/rollup.go:65-83 | when a month is over its rollup is due, named for it |
| RollupCalendar.MonthRolledUpOnce | cmd/hupi-consolidate/rollup.go:88-102 | every month is a source of exactly one yearly rollup, once |
| RollupCalendar.YearlyJobOf | cmd/hupi-consolidate/rollup.go:88-102 | on 1 January the rollup of the year before is due, named for it |
| RollupCalendar.OnlyTheRunningWeekIsLate | cmd/hupi-consolidate/rollup.go:59-84 | when a monthly rollup is due the only week not rolled up yet is the one the first falls in, unless that is a Monday, and it follows within six days |
| PeriodLabels.DayLabelRoundTripsIff | internal/store/temporal.go:125-128 | a day's label is read back as that day exactly for years 0 to 9999 |
| PeriodLabels.MonthLabelRoundTripsIff | internal/store/temporal.go:129-131 | a month's label is read back as that month exactly for years 0 to 9999 |
| PeriodLabels.YearLabelRoundTripsIff | internal/store/temporal.go:139-141 | a year's label is read back as that year exactly for years 0 to 9999 |
| PeriodLabels.WeekLabelRoundTripsIff | internal/store/temporal.go:132-138 | a week's label is read back as that week exactly for ISO years -999 to 9999 |
| PeriodLabels.OnlyLabelsAreRead | internal/store/temporal.go:125-141 | the day, month and year formats read their own labels and no other text |
| PeriodLabels.WeeklyLabelCoversItsDays | cmd/hupi-consolidate/rollup.go:41-57 | the range read from a weekly rollup's label is exactly its seven source days |
| PeriodLabels.AsOfDateIsLastDay | internal/consolidation/period.go:28-57 | a period's as-of date is the last day of its range; for weeks exactly when the text has a weekly label's shape |
| PeriodLabels.MonthSpellingsAgreeIff | cmd/hupi-consolidate/rollup.go:79-96 | yearly rollups spell their months as monthly rollups do, but for the years -999 to -1 |
| UnionFind.Find | internal/consolidation/cluster.go:229-236 | path halving ends at the element's root and changes no element's root |
| UnionFind.Union | internal/consolidation/cluster.go:237-242 | unranked union sends all elements of one root to the other's |
| UnionFind.MergeAddsEdge | internal/consolidation/cluster.go:244-250 | merging the roots of two elements is what adding their edge does to connectivity |
| TopicClusters.ClusterSources | internal/consolidation/cluster.go:213-292 | the clusters partition the sources; before capping two are together exactly when similar pairs connect them, in source order and with the means of their vectors; from there the two closest are united, stage by stage, until the cap is met |
| TopicClusters.CapClusters | internal/consolidation/cluster.go:273-289 | each stage appends the second of the closest pair to the first, takes the mean of their centroids and leaves the rest in order |
| TopicClusters.MostSimilar | internal/consolidation/cluster.go:274-284 | the first of the pairs that no other pair beats |
| RateLimiter.Compact | internal/demo/ratelimit.go:40-47 | filtering in place keeps exactly the recent entries, in order |
| RateLimiter.IPRateLimiter.Allow | internal/demo/ratelimit.go:32-51 | allowed exactly when the attempts ever made by the address in the last window, denied ones included, number at most max; other addresses are unaffected |
| RateLimiter.AtMostMaxPerWindow | internal/demo/ratelimit.go:29-51 | no interval as long as the window holds more than max allowed attempts |
| DemoSessions.StepKeepsInv | internal/demo/store.go:131-385 | every step of creation, use, consolidation and clean-up keeps the counts of table and history in agreement |
| DemoPromises.RoomIff | internal/demo/store.go:131-198 | in every interleaving there is room for a session exactly when fewer than MaxSessionsPerDay were created in the last 24 hours, swept or not |
| DemoPromises.DailyCapHolds | internal/demo/store.go:131-198 | no 24 hours see more than MaxSessionsPerDay creations |
| DemoPromises.ResolveIff | internal/demo/store.go:205-220 | a token is answered with the guest its session was created with, or a failure if that guest had become due for a sweep, exactly when the session is still there, unexpired and not used up, and with an error otherwise |
| DemoPromises.ResolvesToItsOwnGuest | internal/demo/store.go:205-220 | a resolve succeeds only before the expiry its session was created with, and for the guest it was created with |
| DemoPromises.OneGuestEach | internal/demo/store.go:205-220 | two resolves of a run answer the same guest exactly when they are of the same token |
| DemoPromises.MessageCapHolds | internal/demo/store.go:205-220 | no session is ever resolved, with success or not, more often than MaxMessagesPerSession, deleted rows included |
| DemoPromises.MessagesAreAttempts | internal/demo/store.go:205-220 | a row's counter is the number of its successful resolves and of those that found it good but its guest gone |
| DemoPromises.ConsolidateIff | internal/demo/store.go:229-246 | a consolidation is let through exactly when the session is still there, unexpired and has one left |
| DemoPromises.ConsolidationCapHolds | internal/demo/store.go:229-246 | no session consolidates more often than MaxConsolidatesPerSession |
| DemoPromises.VerdictIff | internal/demo/store.go:246-256 | the second look says "limit reached" exactly when the session is still there and not past its expiry |
| DemoPromises.WrongVerdictIff | internal/demo/store.go:229-264 | whatever happens between the two looks, a session below its limit is told it reached it exactly when both fall on the moment it expires |
| DemoPromises.WrongVerdictIsReachable | internal/demo/store.go:229-264 | a run that gets there |
| DemoPromises.EarlySweepFails | internal/demo/store.go:298-342 | for every smaller backstop, a run in which a sweep makes a session fail that is neither expired nor used up, and the message counts |
| DemoBackstop.NeverFailsIff | internal/demo/store.go:205-342 | over all runs whose sweeps use one backstop, no session in good standing ever fails if and only if none can be older than the backstop before it expires, or none could answer at all |
| DemoSessions.Store.CreateSession | internal/demo/store.go:131-198 | creates a row exactly when fewer than the cap were created in the window and the user store and the insert work; a guest whose row does not go in stays in the user store, where no session leads to it |
| DemoSessions.Store.Resolve | internal/demo/store.go:205-220 | answers the row's own guest exactly when the session is good and still has it, and counts the message exactly when it is good |
| DemoSessions.Store.ConsolidateNow | internal/demo/store.go:229-264 | counts one consolidation, whether the run then succeeds or not, or refuses with the second look's verdict |
| DemoSessions.Store.Sweep | internal/demo/store.go:298-342 | no row keeps a guest of whom a session was expired or older than the backstop, no other loses one, and exactly the rows older than the window go; when a clean-up fails, those before it stay cleared and no row is dropped; stranded guests stay |
| DemoCalls.CreateIsItsSteps | internal/demo/store.go:131-198 | a CreateSession that nothing interrupts leaves the rows the method promises |
| DemoCalls.ConsolidateIsItsSteps | internal/demo/store.go:229-264 | likewise ConsolidateNow |
| DemoCalls.SweepIsItsSteps | internal/demo/store.go:298-342 | likewise Sweep, failing or not |
| BundleImport.ImportSummaryFile | internal/hpmf/import.go:216-315 | a period with rows is skipped; into an empty one the file goes as versions 1..n with links followed through the id map, and the records are counted that name a predecessor no earlier record has; a failure leaves nothing |
| BundleImport.FileLoadsIff | internal/hpmf/import.go:242-312 | a file into an empty period loads exactly when no two records share a predecessor |
| BundleImport.LoadedFileIsRenamed | internal/hpmf/import.go:249-309 | a loaded row supersedes another exactly when its record names the id of the other's and that is the last before it with this id; the links lost are those counted |
| BundleOrder.ExportSummaries | internal/hpmf/export.go:180-273 | one file per level and period, none twice and none missing, with all its versions in the order the query by created_at gave them |
| BundleOrder.AnyOrderLoads | internal/hpmf/import.go:242-312 | a period exported in any order loads into an empty one, as versions 1..n in that order |
| BundleOrder.LinksKeptIff | internal/hpmf/import.go:255-275 | no link is lost exactly when every row comes after the one it supersedes |
| BundleOrder.QueryKeepsVersionsIff | internal/hpmf/export.go:186-191 | every answer of the query by created_at keeps the versions exactly when later versions have later times |
| BundleOrder.ChronologicalTableRoundTrips | internal/hpmf/export.go:180-273 | then a whole table exported by that query and imported into an empty scope arrives with every version, content and link |
| SummaryTimes.LinksGoForward | internal/consolidation/store.go:280-323 | in every run on one clock a summary was created later than the one it supersedes, given that imported files come from such runs and no later time |
| SummaryTimes.ExportsOnOneClock | internal/hpmf/export.go:186-191 | after any such run an export loses no link, is a file of that kind again, and keeps every version of a period without a second chain |
| SummaryTimes.ForkedRunsExchange | internal/consolidation/runner.go:88-197 | two overlapping first runs after which an export exchanges the two versions |
| SummaryTimes.FastClockUnlinks | internal/hpmf/import.go:276-295 | a summary imported from a later time and corrected: exported and imported again the correction has lost its link and its place |
| BundleMerge.ImportEntities | internal/hpmf/import.go:155-209 | ids the scope has are left as they are, the others added as their first record has them, and both counted |
| BundleMerge.ImportEpisodes | internal/hpmf/import.go:341-454 | the transaction adds what its specification says or nothing, and counts it; it fails without a free id or a row to refer to |
| BundleMerge.NoFreeIdIff | internal/hpmf/import.go:408-442 | a record finds no id exactly when its own and six drawn ones are all taken |
| BundleMerge.EpisodesRecorded | internal/hpmf/import.go:364-452 | nothing old changes; one new episode per hash the scope did not have, for the first record with it |
| BundleMerge.AllEpisodesKeptIff | internal/hpmf/import.go:381-384 | every record is kept exactly when their hashes are new and differ |
| BundleReferences.StoredReference | internal/hpmf/import.go:401-446 | what a stored episode refers to: the row of the last stored record before it that had the exported id, or else that id itself |
| BundleReferences.ReferencesFollowIff | internal/hpmf/import.go:401-446 | a reference leads to the row of record j exactly when that is the last stored record before it with the id, or it names itself and kept its id |
| BundleReferences.ReferenceLeadsHomeIff | internal/hpmf/import.go:369-374 | it leads to that episode in this scope exactly when the record comes before it and is new, or the scope has it under its exported id, or it is the record itself and its id is free |
| BundleReferences.ReferencesLeadToRows | schema/0001_init.sql:56 | in a table whose references lead to rows they do so after an import |
| BundleReferences.EpisodesLoadIff | schema/0001_init.sql:56 | with random ids that are free, the transaction fails exactly at a stored record that refers to a row nobody has by then |
| BundleReferences.RemarkOnRenamedEpisode | internal/hpmf/import.go:364-452 | an episode imported under a new id, then again with a remark on it: the remark refers to the other scope's row or the import fails |
| BundleReferences.OneRemarkIsKept | internal/hpmf/import.go:381-384 | of two remarks on an episode, both with the empty hash, one is kept |
| BundleMerge.ImportedScope | internal/hpmf/import.go:58-120 | an import that succeeds leaves all entities, every period that had no summaries with the versions of its first file, one episode per new hash, and everything that was there as it was |
| BundleMerge.NonEmptyIsRefused | internal/hpmf/import.go:58-120 | without merge a scope that has anything is left alone |
| BundleMerge.ReimportChangesNothing | internal/hpmf/import.go:58-120 | importing a bundle again with merge changes no entity, summary or episode |
| TextArrays.TextArray | internal/pgfmt/pgfmt.go:15-26 | the literal is the quoted, escaped elements in braces |
| TextArrays.ParseTextArray | internal/pgfmt/pgfmt.go:39-68 | the loop over characters computes the scanner's result |
| TextArrays.LiteralIsRead | internal/pgfmt/pgfmt.go:39-68 | a literal is read back as its list whichever elements are quoted |
| TextArrays.TextArrayRoundTrips | internal/pgfmt/pgfmt.go:15-68 | ParseTextArray undoes TextArray on every list of texts |
| JsonScan.ExtractJSON | internal/consolidation/prompts.go:108-141 | the loop returns the span from the first brace to the one that closes it, all from the first brace on if none does, and the whole text without a brace |
| JsonScan.ExtractsTheObjectIff | internal/consolidation/prompts.go:95-141 | around any JSON object, whatever follows, the span found is the object exactly when no brace comes before it |
| Relationships.UpsertRelationships | internal/consolidation/store.go:599-763 | when it succeeds every sound update is in the table in its own roles and with its dates, an open end perhaps closed by the date of a later update; every new row comes from one such update, in order, and the others add nothing; a violated date order undoes all |
| Relationships.NothingIsDeleted | internal/consolidation/store.go:599-763 | no batch deletes an edge or changes anything about one but an open end |
| Relationships.DatedEdgeReplaces | internal/consolidation/store.go:725-737 | after a dated edge is added every open edge of its subject and predicate leads to its object |
| Relationships.PutFailsIff | schema/0019_entity_relationships_valid_date_order.sql:10-13 | an edge fails the transaction exactly when it ends before it starts or starts before one it would close |
| Relationships.TwiceIsOnce | internal/consolidation/store.go:667-703 | on any table a batch in which no dated open edge is answered differently later does nothing the second time |
| Relationships.SingleObjectsHaveNoReversal | internal/consolidation/store.go:705-737 | batches that name one object per subject and predicate are of that kind |
| Relationships.TwiceIsOnceIff | internal/consolidation/store.go:667-737 | on any table a batch does nothing the second time exactly when no edge it adds closes another edge of it that is not put again later |
| Relationships.TwiceIntoEmptyIff | internal/consolidation/store.go:667-737 | for different edges into an empty table: exactly when no dated open edge is answered differently later |
| Relationships.TwoObjectsSwap | internal/consolidation/store.go:725-737 | two objects from the same date on change places with every application |

## Left out

* Atomicity inside a transaction: each transaction is one step, although
  migrateEntityBatch and its siblings read without locking rows and update without
  checking the version again.
* AES-GCM, key wrapping and randomness: a ciphertext opens under its own key and no
  other; fresh keys, session tokens and guests are new; ids drawn on an import
  collision may be anything.
* Deletion of whole scopes inside the rotation protocol, which resets version
  numbers.
* key_rotations.cursor_id, timestamps and audit rows; row ids are numbers in place
  of texts, compared in the same order.
* A caller that stores several transactions under one key it resolved at its start,
  as an import does, is several writers that began together.
* The commit of a writer resolves the key for merged entities inside the
  transaction; that it also warms the process's cache there is not modelled, LoadKey
  steps stand for it.
* Which of several current rows with the same creation time counts: the model takes
  the later row where the code compares ids as text. A well-formed chain has one.
* What a summary says, grounding, contradictions found, embeddings: a generation
  works or fails. Rollups found by refreshRollupsCovering are taken in storage
  order; the query gives none.
* RotateRunner.Runner.RotateToCompletion: one process alone; what holds beside others
  is stated by RotationCompletion and CompletionHazards.
* RollupStaleness.CodeLeavesFreshIff: assumes that every generation works and that
  each row is stored later than all before it, because a failed generation leaves
  its branch stale by design.
* SummaryRunner.SummaryTable.RunDaily: which summaries the language model finds
  contradicted is a parameter, a function of the table.
* PeriodLabels.AsOfDateIsLastDay: days are unbounded; years so far away that time.Time
  wraps around are not modelled.
* CompletionExact.CompletesEmptyIff: beside another rotation's Continue, the rotations
  before are taken to have left no row and no writer below the old version.
* SummaryTimes.LinksGoForward: a storing transaction begins strictly later than its run's
  reading one ended, the language model's answer being in between.
* TopicClusters.ClusterSources: vectors, means and cosine similarity are abstract;
  rounding is not modelled. Clusters hold positions in place of the texts.
* RateLimiter.IPRateLimiter.Allow: the mutex is left out, calls come one at a time;
  a slice that grows gets a new buffer of some larger size.
* DemoSessions.Store.ConsolidateNow: what the consolidation does to summaries is
  SummaryRunner's; errors of the database are not modelled, in the step protocol a
  call may be lost anywhere.
* Tables that import, export and upsertRelationships change in the database are
  passed to and returned from their methods as values; a failed transaction returns
  none.
* BundleMerge.ImportEpisodes: contents other than hash and reference, files and
  their order, and encryption are left out.
* Relationships.UpsertRelationships: canonical names and predicate cleaning are
  taken as done; what cannot be resolved is None.
* Entity upserts (mergeAttributes, canonicalEntityID, slugify), retry delays,
  importance scores, HTTP handlers, the command line, configuration, the dashboard,
  document extraction and archive packing would only add easy members.
