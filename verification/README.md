# Verified model of the betting decision-support pipeline

This project models the parts of the system whose correctness spans several
functions or a whole run, and proves what those parts promise.

The money-at-risk core is the stake commit. A candidate pick is persisted, granted
exposure by an in-memory ledger with a daily and a per-event cap, and committed,
inside a shield that holds back cancellation (`Ledger`, `StakeCommit`, `Shield`,
`RankedReserve`). `ExposureRecovery` puts the call, its failures, crashes and the
startup seeding into one transition system. There the ledger never counts less than
the committed charge, whatever fails and whatever the table inherited; the two are
equal when the table holds no same-day row from before the charge columns; and the
caps hold over every run. For the total of one event this supposes that references
resolve to their own event row; the total of the day supposes nothing about them.

The data path is modelled from the poll onwards: the change-only odds log and its
bounded cache (`OddsLog`, `OddsSeen`), one quote per outcome and the three views
built from it (`Coalesce`), the label vocabularies and their fold (`FoldDetails`),
the merge of groups and the lookup that re-prices an open pick from exactly one
line (`VocabMerge`, `LineCoherence`), the life of an open pick under re-pricing
(`Revalidation`), the scheduling of pages outside the poll window (`OffWindow`) and
the candidate loop with its demotion gates (`Demotion`).

Around it stand the repair scripts (`Relabel`, `RelabelColumns`; `ResultIndex`,
`SettlementTables`, `SettlementRepair`, `RepairOutcomes`), two configuration mini-languages
(`ConfigParsers`) and the acquisition and release of resources (`Teardown`).
`Common` holds filtering, de-duplication and a stable sort.

Five modules say in columns, texts and figures what the rules of the others come to:
whose status a write changes and how long an open pick stays open (`PickStatus`), which
quotes the log writes and the history it keeps per line (`OddsLines`), which label texts
name which line (`LineLabels`), and which rows the repairs touch (`RelabelRules`,
`RepairRules`).

Code that updates something in place is a class or a method with loops, proved
against a specification function; the laws are lemmas about those functions.
`dafny verify dfyconfig.toml` checks the whole project.

## Where the code and its promise differ

Each of these is a lemma with the exact condition, most with a second lemma at a
concrete input.

- Re-pricing a premium row created today but written before the charge columns
  existed forgets the stake it was implicitly charged
  (`ExposureRecovery.DayAgreementIff`, `LegacyRepriceUndercounts`).
- Seeding skips event totals when no per-event cap is set (`SeedRestores`), and an
  event reference that resolves to another event row splits the event total
  between two keys (`EventAgreementAfterCommitIff`, `RedirectedReferenceSplits`).
- The alert of a re-detected pick quotes its target, not the stake its row carries
  (`RankedReserve.AlertQuotesRowIff`, `RedetectionQuotesTarget`); an alert lost to an
  interruption comes back the same way (`LostAlertReturns`).
- `daily_clipped` is also set on a new pick whose target is zero already
  (`RankedReserve.ClippedFlagIff`, `ZeroTargetIsFlagged`).
- An exception outside `Exception` that ends the shielded child replaces the
  caller's cancellation (`Shield.CancellationAuthoritativeIff`).
- A corrected price under an unchanged provider timestamp enters the cache but not
  the log (`OddsLog.CycleFaithfulIff`, `CorrectedPriceIsLost`); without corrections,
  and with capture times in order, every run is faithful (`SteadyRunIsFaithful`).
- Five implausible passes in a row do not end a pick when the one that reaches the
  limit is rolled back: the streak, which is not in the database, starts again
  (`Revalidation.FiveInARow`, `FifthRolledBack`).
- A value-lost alert is lost for good when its pass is cancelled between the commit and
  the dispatch (`Revalidation.OneAlertPerCrossing`, `CancelledAlertIsLost`).
- The terminal no-close state is left again through a mint-side re-price or upgrade
  (`Revalidation.TerminalLeftIff`).
- The reported volume count leaves out re-detected rows (`Demotion.MintedIff`).
- A bare `Betfair` row that cannot be relabelled is not logged, and neither is an
  overlap row with a sportsbook sibling whose `10bet` label is taken
  (`Relabel.BareLoggedIff`, `BareConflictLeavesNoTrace`, `OverlapLoggedIff`,
  `OverlapConflictLeavesNoTrace`).
- The expiry run leaves a carve-out pick superseded when a twin has a result or is
  due as well, although it re-opens the twin it voided
  (`RepairOutcomes.CarveOutHoldsIff`, `TwinStaysSuperseded`).
- A scheduler builder that fails after creating a client leaks that client, and a
  cancellation of the lock query leaves its connection open (`Teardown.NothingLeaksIff`,
  `FailedBuilderLeaks`, `CancelledLockLeaks`).

## Model

| member | source | states |
|---|---|---|
| Ledger.DailyExposureLedger.constructor | app/risk/exposure.py:38-46 | a new ledger has its caps and counts nothing |
| Ledger.DailyExposureLedger.Remaining | app/risk/exposure.py:51-52 | the room the day has left, never negative |
| Ledger.DailyExposureLedger.EventUsed | app/risk/exposure.py:54-55 | what one event has used on a day |
| Ledger.DailyExposureLedger.Reserve | app/risk/exposure.py:63-80 | the grant and the new state are those of the ledger contract; a negative request is an error that changes nothing |
| Ledger.DailyExposureLedger.Release | app/risk/exposure.py:110-125 | gives back a grant on the day and on the event, clamped at zero; a negative amount is an error |
| Ledger.DailyExposureLedger.Preload | app/risk/exposure.py:82-92 | restart recovery of the day total |
| Ledger.DailyExposureLedger.PreloadEvent | app/risk/exposure.py:94-108 | restart recovery of one event, leaving the day total alone |
| Ledger.GrantIsGreatest | app/risk/exposure.py:63-80 | the grant is the greatest amount that fits the request, the room of the day and the room of the event |
| Ledger.GrantRespectsCaps | app/risk/exposure.py:63-80 | a grant leaves both totals at or under their caps unless they already were over |
| Ledger.ReleaseUndoesCharge | app/risk/exposure.py:63-125 | releasing a grant answers every later query as if it had never been charged |
| StakeCommit.PersistAndReserveCall | app/pipeline.py:1741-1871 | one shielded call, failing or cancelled at any await, has the effect of the one-step specification on table and ledger: an uncommitted call leaves no row and gives its whole grant back |
| StakeCommit.StagedBy | app/storage/repositories.py:5120-5550 | what persisting a premium candidate stages: a fresh row, an upgraded volume row, or a re-priced premium row with its previous stake and its charge columns kept |
| PickStatus.OutcomeIs | app/storage/repositories.py:5120-5550 | for a key that is taken, the write upgrades, re-prices, denies or repeats by tier, status, stake and price of its first row |
| PickStatus.InsertedIff | app/storage/repositories.py:5120-5550 | a write inserts exactly when no row has its key |
| PickStatus.DisplacedIff | app/storage/repositories.py:5116-5145 | in either tier row i changes status exactly when the write inserts or upgrades and the row is an open one of the same event, market, detail and selection under another version, not a premium one when the writer is volume; rows of other keys change nothing else |
| PickStatus.CallDisplacesIff | app/pipeline.py:1741-1871 | the same for a whole call, which changes no row when it does not commit |
| PickStatus.OpenUntilReplaced | app/storage/repositories.py:5116-5145 | over every run with failures, crashes and restarts an open pick stays open until another version of it is written in a tier that may displace it, or it is closed |
| PickStatus.OtherEventStaysOpen | app/storage/repositories.py:5116-5145 | an open pick of one event and a new candidate of another: the old row is untouched |
| ExposureRecovery.SeedExposureLedger | app/scheduler.py:239-313 | startup seeding of the ledger from the day's premium rows; it fails exactly when a sum is negative |
| ExposureRecovery.SeedRestores | app/scheduler.py:239-313 | seeding restores the day total always, and an event total exactly when the per-event cap is on or the event carries no charge |
| ExposureRecovery.CommitCharge | app/storage/repositories.py:5553-5688 | one commit adds exactly the grant to the day's charge, total and per event, except for a same-day legacy row, whose implicit stake is forgotten |
| ExposureRecovery.AgreementAfterCommitIff | app/pipeline.py:1789-1862 | in any scope ledger and table agree after a fault-free call exactly when the grant, told from the inputs, is counted and charged in the same scope and forgets no legacy stake |
| ExposureRecovery.DayAgreementIff | app/storage/repositories.py:5553-5688 | for the day: exactly when no same-day legacy stake is forgotten |
| ExposureRecovery.LegacyRepriceUndercounts | app/storage/repositories.py:5553-5688 | a concrete re-price of a same-day legacy row that leaves 0.03 in the ledger and 0.01 in the table |
| ExposureRecovery.EventAgreementAfterCommitIff | app/pipeline.py:1789-1862 | all event totals agree after a fault-free call exactly when nothing is granted, or the reference is that of the event row and no legacy stake is forgotten |
| ExposureRecovery.RedirectedReferenceSplits | app/storage/repositories.py:776-812 | a concrete call under a reference that resolves to another event row: 0.02 counted under the one, charged to the other |
| ExposureRecovery.StepSafe | app/pipeline.py:1741-1871 | every step of the transition system (persist, reserve, update, commit, abort, volume write, close, next day, crash, restart) keeps the ledger at or above committed charge + open grant, on any table |
| ExposureRecovery.StepExact | app/pipeline.py:1741-1871 | without same-day legacy rows every step keeps the two equal |
| ExposureRecovery.ExposureNeverEscapes | app/pipeline.py:1741-1871 | over every run with failures, crashes and restarts the committed same-day premium charge, with any open grant, never exceeds the ledger: for the day, and for every event whose candidates reserve under its reference |
| ExposureRecovery.DayNeverEscapes | app/pipeline.py:1741-1871 | the same for the day under no condition on the candidates or on legacy rows |
| ExposureRecovery.ExposureIsExact | app/pipeline.py:1741-1871 | from a table without same-day legacy rows the two are equal whenever no transaction is open |
| ExposureRecovery.CapHoldsForever | app/risk/exposure.py:63-80 | over every run, across crashes, restarts and days, neither ledger nor committed charge rises above the cap, or above the start when that was more |
| ExposureRecovery.ClosedStaysCharged | app/storage/repositories.py:5553-5688 | settling a pick closes its row and changes neither charge nor ledger |
| ExposureRecovery.NextDayStartsEmpty | app/risk/exposure.py:51-61 | the next day starts without charge in the table, and without usage in an agreeing ledger |
| ExposureRecovery.RestartRestores | app/scheduler.py:239-313 | after a crash anywhere, also inside a transaction, a same-day restart counts exactly the committed charge: never more than the lost ledger, and the same when nothing was open or forgotten |
| ExposureRecovery.BootIsConsistent | app/scheduler.py:239-313 | a fresh process is safe on any table, and exact on one without same-day legacy rows |
| ExposureRecovery.CallIsARun | app/pipeline.py:1741-1871 | the one-step call specification is a run of the small steps, for every fault |
| ExposureRecovery.RunRatchets | app/pipeline.py:1789-1862 | over every run no row disappears, a premium row stays premium and its stake never drops |
| RankedReserve.RankedIsFair | app/pipeline.py:3098 | candidates are reserved in descending raw Kelly, equals in their original order |
| RankedReserve.ReserveInOrder | app/pipeline.py:3100-3150 | the reserve loop over ledger and table, ended early by a cancelled call or by a cancellation of the caller that surfaces after a call and before its alert |
| RankedReserve.ReserveRanked | app/pipeline.py:3098-3150 | sorting and reserving together |
| RankedReserve.CycleAccounts | app/pipeline.py:1789-1862 | over a cycle the ledger grows by exactly what the calls committed, in total and per event |
| RankedReserve.InterruptKeepsReservations | app/pipeline.py:3113-3150 | an interruption loses at most one alert and no reservation: the ledger holds what was committed, for the day and for every event |
| RankedReserve.AlertQuotesRowIff | app/pipeline.py:1779-1862 | the alert of a call quotes the stake of its row exactly when the call is not a re-detection, or the row carries the whole target |
| RankedReserve.LostAlertReturns | app/pipeline.py:3109-3150 | after a committed call, detecting the pick again at the same price alerts it, commits nothing and moves nothing; it quotes the target of that moment |
| RankedReserve.RedetectionQuotesTarget | app/pipeline.py:1780-1782 | a concrete pick clipped to 0.01 that is alerted at 0.01 and, when detected again, at 0.03 |
| RankedReserve.CapsHold | app/pipeline.py:3098-3131 | over any cycle, whatever fails, committed grants fit the room the day and each event had left |
| RankedReserve.ClippedStarvesTheRest | app/pipeline.py:3098-3131 | once a call has committed less than it asked for, and not because of its event, every lower-ranked candidate is granted nothing |
| RankedReserve.CommittedStake | app/pipeline.py:1789-1862 | the committed row carries the stake the alert quotes; re-pricing never lowers it nor lifts it above the larger of the old stake and the Kelly target |
| RankedReserve.ClippedFlagIff | app/pipeline.py:1813-1862 | `daily_clipped` says that the committed total is below the target exactly when the call re-prices or its target is not zero |
| RankedReserve.ZeroTargetIsFlagged | app/pipeline.py:1813-1862 | a concrete new pick with a zero target that is flagged as clipped |
| Shield.ShieldHolds | app/pipeline.py:1711-1738 | for every interleaving the wrapper exits only after the child, passes its end on when never cancelled, and otherwise raises the cancellation or a fatal end |
| Shield.CancellationAuthoritativeIff | app/pipeline.py:1711-1738 | a cancelled caller always sees its cancellation exactly when the child does not end with an exception outside Exception |
| Shield.DoneChildReleasesCaller | app/pipeline.py:1711-1738 | a finished child releases the caller at its next resumption, whatever it awaits and whatever is pending |
| Shield.EndIsFinal | app/pipeline.py:1711-1738 | in every schedule a finished child keeps its end, and any resumption after it has released the caller |
| Shield.TimeoutReturns | app/scheduler.py:93-129 | wherever watchdog cancellations landed, the caller regains control at the first resumption after the transaction is over |
| Shield.TimeoutLeavesNoOrphan | app/scheduler.py:93-129 | wherever watchdog cancellations land, when the caller regains control the transaction is over and the ledger counts the committed charge: no less on any table, exactly without same-day legacy rows |
| OddsLog.SweepBounds | app/pipeline.py:168-181 | the sweep is a no-op under the cap, otherwise ends at or below it, keeps nothing older than what it evicts, and below the cap evicts stale entries only |
| OddsLog.CycleFaithfulIff | app/pipeline.py:744-814 | one cycle with unresolved events, a failed batch, per-event failures and evictions keeps the log stutter-equivalent to the accepted observations, and each cached price the last of them, exactly when no accepted write hit an existing observation key with another price |
| OddsLines.KeysTellLines | app/pipeline.py:772-777 | two snapshots share a key exactly when event, book, selection and line agree, the line being the detail or else the bare market; two different labels never share one |
| OddsLines.WrittenIff | app/pipeline.py:764-783 | a snapshot is written exactly when its event resolves and the last one of its outcome before it, or else the cache, carries another price or does not exist |
| OddsLines.BothLinesWritten | app/pipeline.py:772-777 | two labelled lines at one price, seen for the first time, are both written |
| OddsLines.EveryLineKeepsItsHistory | app/pipeline.py:744-814 | over runs with quotes in order of capture time and no corrections, the log holds for every event, book, line and selection exactly the compressed history of the accepted prices |
| OddsLog.CachedIsLastLogged | app/pipeline.py:744-814 | while the log is faithful each cached price is the last logged price of its key |
| OddsLog.SteadyTimesLoseNothing | app/storage/repositories.py:3109-3300 | quotes that are newer than every row of their key, or repeat a row under its timestamp, lose nothing |
| OddsLog.CorrectedPriceIsLost | app/storage/repositories.py:3109-3300 | a concrete corrected price under an unchanged provider timestamp that is cached but never logged |
| OddsLog.RunIsFaithful | app/pipeline.py:744-814 | over every run of polls and restarts that loses no write the compressed log carries exactly the accepted price history of every key |
| OddsLog.SteadyRunIsFaithful | app/pipeline.py:744-814 | so does every run whose polls bring the quotes of each key in order of capture time and never two prices under one time, whatever fails, is evicted or restarts |
| OddsSeen.OddsSeenCache.Delete | app/pipeline.py:176-181 | deleting keys from the cache in place |
| OddsSeen.OddsSeenCache.StaleKeys | app/pipeline.py:175-177 | the keys not seen for the time to live |
| OddsSeen.OddsSeenCache.Sweep | app/pipeline.py:168-181 | the in-place sweep computes the specified cache |
| OddsSeen.OddsSeenCache.CompareAll | app/pipeline.py:764-783 | the comparison loop: which rows to write and what to remember |
| OddsSeen.OddsSeenCache.Absorb | app/pipeline.py:805-813 | merging the accepted updates, then sweeping |
| OddsSeen.OddsSeenCache.PersistSnapshots | app/pipeline.py:744-814 | one cycle on cache and table in place, with the number of new rows |
| Coalesce.CoalesceMarketSnapshots | app/pipeline.py:3517-3551 | the loop over the snapshots computes the specified list of winners |
| Coalesce.CoalesceIncremental | app/pipeline.py:3517-3551 | coalescing a concatenation equals coalescing the first part, then the rest, as lists |
| Coalesce.CoalescedAreWinners | app/pipeline.py:3517-3551 | a snapshot is kept exactly when no snapshot of its outcome outranks it, and every outcome keeps one |
| Coalesce.BestOrderFree | app/pipeline.py:3517-3551 | the winner of an outcome does not depend on the input order |
| Coalesce.GroupMarketPrices | app/pipeline.py:3580-3593 | the price map and its capture times answer with the winner of each outcome and have no empty level |
| Coalesce.GroupMarketFreshnessTimes | app/pipeline.py:3566-3577 | the freshness map answers with the winner, on either basis |
| Coalesce.GroupMarketLiquidity | app/pipeline.py:3639-3655 | the liquidity map answers with the winner when its liquidity is known, and is silent otherwise |
| Coalesce.ViewsOrderFree | app/pipeline.py:3566-3655 | for every permutation of the input all three views are the same maps |
| Coalesce.ViewsReadOneSnapshot | app/pipeline.py:3566-3655 | for each outcome all views read one and the same snapshot, the one nothing outranks |
| Coalesce.KeptIsNewest | app/pipeline.py:3517-3551 | a quote is kept exactly when none of its event, market, detail, selection and book is newer by capture time, then ingestion, then odds |
| Coalesce.ViewsReadFields | app/pipeline.py:3566-3655 | the views of a kept quote hold its own odds, capture time, basis time and known liquidity |
| OffWindow.OrderOffwindowRefs | app/clv_trueup.py:878-920 | the loop over open-pick rows and the keyed sort compute the specified scrape order |
| OffWindow.KeyMeaning | app/clv_trueup.py:894-918 | a page is premium or imminent when one of its picks is, and as stale as its oldest stamp |
| OffWindow.OrderedIsFair | app/clv_trueup.py:878-920 | every page once, none behind a page that should come later |
| OffWindow.IneligibleUseNoSlot | app/clv_trueup.py:855-869 | covered, foreign and disallowed pages never use a slot: the links are the first eligible pages, up to the cap |
| OffWindow.LeftOutMeansFull | app/clv_trueup.py:855-920 | an eligible page is left out only behind a full cap of pages it should not precede |
| OffWindow.MissCostsRivals | app/clv_trueup.py:1076-1110 | every pass that leaves a page out uses up cap - h of the pages of its own band that could precede it |
| OffWindow.BoundedWaiting | app/clv_trueup.py:1076-1110 | a page whose higher bands hold h < cap pages and whose own band holds m is attempted within ceil(m / (cap - h)) passes, whatever the query order and whenever others become imminent |
| OffWindow.StarvedBelowFullBand | app/clv_trueup.py:878-920 | with cap or more eligible pages in higher bands the page is not attempted, so the threshold is exact |
| FoldDetails.CanonicalIdempotent | app/pipeline.py:1278-1298 | canonicalising a canonical label changes nothing |
| FoldDetails.CanonicalKeepsLine | app/pipeline.py:1278-1298 | a fold never changes the line a label names, nor whether it names one |
| FoldDetails.IndexNatives | app/pipeline.py:1344-1356 | the first loop: canonical labels and the index of native fractional labels per selection |
| FoldDetails.FoldInjectedGroupDetails | app/pipeline.py:1335-1377 | the two loops compute the specified fold |
| FoldDetails.OnlyLabelsChange | app/pipeline.py:1335-1377 | rows are never added, dropped or reordered, and only `market_detail` changes |
| FoldDetails.AdoptedIff | app/pipeline.py:1357-1377 | an injected handicap row is adopted exactly when a native row quotes its selection on the same magnitude and no native row of the selection carries another label |
| FoldDetails.AmbiguityBlocks | app/pipeline.py:1357-1377 | two native labels for one selection block the adoption |
| FoldDetails.FoldPermutes | app/pipeline.py:1335-1377 | the fold commutes with permutation of the input |
| FoldDetails.LinesNeverMerge | app/pipeline.py:1335-1377 | rows placed under one label came with the same line magnitude, or both without one |
| LineLabels.FractionIff | app/pipeline.py:1324-1332 | the magnitude of `w_f` is w plus the decimal fraction f, and it has a fraction exactly when f is not all zeros |
| LineLabels.TrailingZero | app/pipeline.py:1324-1332 | a further zero names the same magnitude |
| LineLabels.OneDecimal | app/pipeline.py:1324-1332 | the magnitude of a one-decimal token in figures |
| LineLabels.TwoDecimals | app/pipeline.py:1324-1332 | the magnitude of a two-decimal token in figures |
| LineLabels.NativeTokenIff | app/pipeline.py:1321-1332 | which texts are native spread labels, and of which line |
| LineLabels.HandicapTokenIff | app/pipeline.py:1321-1332 | which texts are injected handicap labels, and of which line |
| LineLabels.InjectedIff | app/pipeline.py:1350-1377 | a row may be adopted exactly when it is a spread whose label spells a line with a non-zero fraction in the injected vocabulary |
| LineLabels.NativeIff | app/pipeline.py:1335-1349 | a row is a native rival exactly when it is a spread whose label spells such a line in the native vocabulary |
| LineLabels.QuarterLineAdopted | app/pipeline.py:1335-1377 | `asian_handicap_-w_f` takes the label `spreads_minus_w_f` when a row of its selection carries that and every native row of the selection agrees, whenever f is not all zeros |
| LineLabels.OthersNeverAdopted | app/pipeline.py:1350-1377 | a row whose label does not spell a line with a fraction in the injected vocabulary is never adopted |
| LineLabels.WholeLineStays | app/pipeline.py:1350-1377 | an injected label of a whole line, with or without a zero fraction, stays |
| LineLabels.QuarterBall | app/pipeline.py:1350-1377 | `asian_handicap_-0_25` beside `spreads_minus_0_25` |
| LineLabels.TotalsFold | app/pipeline.py:1278-1298 | `over_under_` and `over_under_games_` of a line, in any case, become its totals label, an integer one without `_0` |
| LineLabels.TotalsKept | app/pipeline.py:1278-1298 | a totals label only loses `_0` |
| LineLabels.LinelessFold | app/pipeline.py:1278-1298 | a label that names the market only becomes no label |
| LineLabels.DigitIff | app/pipeline.py:1321-1322 | the digits of the label patterns are the ten of ASCII |
| LineLabels.LowerIs | app/pipeline.py:1289 | lowering replaces the 26 capitals by their own letters and nothing else |
| FoldDetails.FoldIdempotent | app/pipeline.py:1335-1377 | folding twice equals folding once |
| VocabMerge.MergeInto | app/clv_trueup.py:244-255 | merging one group into another in place: books per selection, then capture times |
| VocabMerge.MergeVocabularyGroups | app/clv_trueup.py:230-256 | the loop over the groups accumulates, per canonical key, the merge of its source groups |
| VocabMerge.PairsUntorn | app/clv_trueup.py:230-256 | each merged odds and capture time are an untorn pair of one source group with the latest time, unknown losing; what any source prices is kept |
| VocabMerge.MergedFields | app/clv_trueup.py:230-256 | a merged group prices an outcome exactly when a source group of its event, market and canonical label does, with odds and capture time of one and the same source, the latest |
| VocabMerge.KeysUnion | app/clv_trueup.py:230-256 | a canonical key exists exactly when a source group canonicalises to it |
| VocabMerge.MergeOrderFree | app/clv_trueup.py:230-256 | when the latest sources agree on the odds the order of the groups does not matter |
| VocabMerge.MergeOrderFreeIff | app/clv_trueup.py:230-256 | the order of the groups matters exactly when two latest sources disagree on the odds |
| VocabMerge.MergeIdempotent | app/clv_trueup.py:230-256 | merging the merged groups again, in any order, changes nothing |
| LineCoherence.AnchorGroups | app/clv_trueup.py:459-478 | the loop over the anchored fairs: line-blind maps, ambiguous keys and exact maps |
| LineCoherence.CollectGroupPrices | app/clv_trueup.py:271-315 | for an anchored key only the anchored line's own prices and capture times are collected, and its ambiguity is unchanged |
| LineCoherence.CollectExact | app/clv_trueup.py:497-506 | the exact maps hold each labelled group's own prices and capture times |
| LineCoherence.BuildLookup | app/clv_trueup.py:432-506 | for every pick key and stamp the lookup answers exactly when there is a line to read, with fair, anchor, fallback flag, books and capture times of that one line |
| LineCoherence.ReadOffOneLine | app/clv_trueup.py:432-592 | every answer is read off one group, for an unstamped key the only one that fits it: fair, anchor and fallback flag of that group, and its own prices and capture times together or neither |
| LineCoherence.LookupOrderFree | app/clv_trueup.py:432-506 | the decision and the values are the same for every iteration order of both dictionaries |
| LineCoherence.LegacyNeedsOneLine | app/clv_trueup.py:556-592 | two anchored lines silence a legacy pick, while a stamped pick still reads its own line |
| Revalidation.OpenPicks.RepriceOne | app/clv_trueup.py:541-628 | one pick and its streak, changed in place as specified, and no other pick |
| Revalidation.OpenPicks.RepriceRows | app/clv_trueup.py:541-790 | the loop: each pick reached moves by its own finding alone and the alerts are built in row order |
| Revalidation.OpenPicks.RevalidateOpenPicks | app/clv_trueup.py:526-824 | one pass: when it raises or its commit fails no pick moves and no alert goes out, but the streaks of the rows reached have moved; otherwise the alerts go out in row order up to a cancellation |
| Revalidation.BecomesTerminal | app/clv_trueup.py:594-614 | a pick becomes terminal only at the fifth implausible pass of a stretch without a plausible one or a restart, one that commits with its fair more than 0.20 above the implied probability, and only while it has no stored close |
| Revalidation.UnpricedPassIsSilent | app/clv_trueup.py:594-614 | a pass without a fair strictly between zero and one writes nothing and leaves the streak |
| Revalidation.FiveInARow | app/clv_trueup.py:594-614 | conversely, an unbroken row of implausible passes ends a pick without a stored close exactly when one that reaches the limit commits |
| Revalidation.FiveCommittedEndIt | app/clv_trueup.py:594-614 | so passes that take the streak to the limit and all commit end it |
| Revalidation.FifthRolledBack | app/clv_trueup.py:596-622 | a concrete row of five whose last is rolled back: the reason is lost, the streak is zero, and four more do not end the pick |
| Revalidation.TerminalLeftIff | app/storage/repositories.py:5340-5540 | a pass or a restart leaves a terminal pick as it is; it leaves the state exactly through a mint-side re-price or upgrade |
| Revalidation.TerminalIsFrozen | app/clv_trueup.py:541-552 | until then no later re-price writes it |
| Revalidation.StoredCloseIsLatest | app/clv_trueup.py:625-630 | while a pick is never given up on, its stored close is the fair of its last committed plausible pass since the last mint-side rewrite |
| Revalidation.StoredCloseWasPlausible | app/clv_trueup.py:594-614 | over every trace a stored close was the fair of a committed pass, strictly between zero and one and at most 0.20 above the implied probability of the fill odds |
| Revalidation.MarkTracksEdge | app/clv_trueup.py:95-123 | over every trace, with passes rolled back anywhere, the mark is set exactly while the last durably judged edge is below the floor, with the time that stretch began |
| Revalidation.OneAlertPerCrossing | app/clv_trueup.py:511-516 | over every trace a durable downward crossing is alerted at most once, and all are exactly when no pass is cancelled between its commit and its alert |
| Revalidation.CancelledAlertIsLost | app/clv_trueup.py:511-516 | an alert cancelled after the commit is not repeated; one whose pass is rolled back is built and handed out by the next pass that commits |
| Revalidation.InertWithoutFloor | app/clv_trueup.py:118-119 | without a floor nothing is marked or mentioned |
| Demotion.EveryEdgeTieredIff | app/config.py:1700-1731 | no scanned edge is left without a tier exactly under the validated floor ordering, or when all premium floors coincide |
| Demotion.RunChain | app/pipeline.py:2454-2800 | the guarded gates in program order charge a candidate to the first gate that objects |
| Demotion.Judge | app/pipeline.py:2361-3055 | one iteration of the candidate loop records the candidate where its fate says |
| Demotion.ScanCandidates | app/pipeline.py:2361-3055 | the loop's counters, lists and audit rows |
| Demotion.Conservation | app/pipeline.py:2393-3055 | candidates reaching the freshness gate = stale + off-band + sanity-dropped + ceiling-dropped + untiered + consensus-dropped + volume + premium |
| Demotion.PremiumConservation | app/pipeline.py:2454-3055 | initially premium candidates = deferred premium + consensus-dropped + the sum of the demotion counters |
| Demotion.NoneUntiered | app/pipeline.py:2428-2430 | under the validated floors no scanned candidate is untiered |
| Demotion.MintedIff | app/pipeline.py:3043-3049 | the reported volume count equals the volume candidates exactly when all their rows were newly inserted |
| Demotion.KeptIff | app/pipeline.py:2454-3055 | a candidate is kept premium exactly when it starts premium and no gate objects |
| Demotion.FloorIsFirst | app/pipeline.py:2361-2453 | the premium floor is that of the first configured key, else the common one |
| Demotion.DroppedIff | app/pipeline.py:2361-2453 | which candidates are dropped outright, and under which of the guards each is counted, in odds, age and bands |
| Demotion.TierIs | app/pipeline.py:2361-2453 | past the guards the tier follows the edge against the two floors |
| Demotion.GateObjects | app/pipeline.py:2454-3055 | what each of the eleven gates objects to, in the fields of candidate and settings |
| Demotion.StoppedIff | app/pipeline.py:2454-2800 | a demotion is charged to the earliest gate that objects, and to no other |
| Demotion.AuditMeans | app/pipeline.py:2999-3035 | an audit row names a demoting gate exactly when the candidate lost the premium tier to it; reasons are empty exactly for a premium row or volume that missed no special floor |
| Relabel.OddsTable.Relabel | scripts/restate_oddschecker_betfair_labels.py:138-164 | one guarded UPDATE with its audit insert, judged against the table as the statement found it |
| Relabel.OddsTable.LogConflicts | scripts/restate_oddschecker_betfair_labels.py:167-185 | the conflict log of a statement |
| Relabel.OddsTable.LogAmbiguous | scripts/restate_oddschecker_betfair_labels.py:262-277 | the log of overlap rows without a sibling |
| Relabel.OddsTable.Restate | scripts/restate_oddschecker_betfair_labels.py:207-316 | the four statements and three logs in order |
| Relabel.OrderedIsSimultaneous | scripts/restate_oddschecker_betfair_labels.py:207-316 | the ordered statements are one substitution told from the original table alone, so no row hops twice |
| Relabel.RunKeepsUnique | scripts/restate_oddschecker_betfair_labels.py:138-164 | the uniqueness key of observations survives the run |
| Relabel.RelabelledXorLogged | scripts/restate_oddschecker_betfair_labels.py:207-316 | every in-scope row of the two logged classes is relabelled with an audit entry or left with a conflict entry, never both |
| RelabelRules.FinalLabel | scripts/restate_oddschecker_betfair_labels.py:207-316 | the label every row ends with, told by labels, dates and the rows of its observation; nothing else of a row changes |
| RelabelRules.TenbetIff | scripts/restate_oddschecker_betfair_labels.py:207-251 | which illiquid exchange rows are 10bet's |
| RelabelRules.BareIff | scripts/restate_oddschecker_betfair_labels.py:252-285 | which bare rows move to the exchange |
| RelabelRules.SportsbookIff | scripts/restate_oddschecker_betfair_labels.py:286-316 | which sportsbook rows move to the exchange |
| RelabelRules.MovedIff | scripts/restate_oddschecker_betfair_labels.py:138-316 | for each of the four classes: the trail has the applied entry about a row exactly when that row moves, in labels and dates of the original table |
| RelabelRules.LeftIff | scripts/restate_oddschecker_betfair_labels.py:138-316 | the trail has a conflict or ambiguity entry about a row exactly when it is an exchange row after the cutover or a sportsbook row that does not move, or an overlap row without a sportsbook row of its event and day |
| RelabelRules.NothingElseLogged | scripts/restate_oddschecker_betfair_labels.py:138-316 | every entry of the trail is of one of these seven kinds, about a row of the table |
| RelabelRules.EntriesSay | scripts/restate_oddschecker_betfair_labels.py:138-316 | old label, new label and reason of every kind of audit entry |
| Relabel.BareLoggedIff | scripts/restate_oddschecker_betfair_labels.py:279-291 | an in-scope bare row has an entry exactly when it is relabelled; one whose exchange label is taken stays as it is without one |
| Relabel.BareConflictLeavesNoTrace | scripts/restate_oddschecker_betfair_labels.py:279-291 | a concrete table of a bare row beside a genuine exchange row of the same key |
| Relabel.OverlapLoggedIff | scripts/restate_oddschecker_betfair_labels.py:240-277 | a row of the overlap class has an entry unless it has a sibling and its 10bet label is taken; such a row stays as it is without any entry |
| Relabel.OverlapConflictLeavesNoTrace | scripts/restate_oddschecker_betfair_labels.py:240-277 | a concrete table of three rows with such a row |
| Relabel.UndoRestores | scripts/restate_oddschecker_betfair_labels.py:138-316 | undoing the applied audit entries, latest first, restores the original table |
| RelabelColumns.LabelTable.Rewrite | scripts/restate_oddschecker_betfair_labels.py:319-344 | one column rewrite with its audit entries |
| RelabelColumns.LabelTable.RewriteAll | scripts/restate_oddschecker_betfair_labels.py:318-400 | the loop over a mapping list |
| RelabelColumns.OrderedIsSimultaneous | scripts/restate_oddschecker_betfair_labels.py:104-135 | in a safe order the column rewrites are one simultaneous substitution |
| RelabelColumns.ScriptOrderIsSafe | scripts/restate_oddschecker_betfair_labels.py:110-135 | the three mapping lists of the script are in a safe order |
| RelabelColumns.PickLabels | scripts/restate_oddschecker_betfair_labels.py:110-122 | what becomes of every label column of a pick, in labels and dates; other columns stay |
| RelabelColumns.EvaluationLabels | scripts/restate_oddschecker_betfair_labels.py:124-130 | the same for an evaluated candidate |
| RelabelColumns.BetLabels | scripts/restate_oddschecker_betfair_labels.py:132-135 | the same for a bet |
| RelabelColumns.SwappedOrderHops | scripts/restate_oddschecker_betfair_labels.py:104-135 | in the opposite order a label of the late window hops twice |
| RelabelColumns.UndoRestores | scripts/restate_oddschecker_betfair_labels.py:318-400 | undoing the audit trail gives back every row of the picks, evaluations and bets tables |
| RelabelColumns.WithdrawCloses | scripts/restate_oddschecker_betfair_labels.py:402-448 | contaminated closes are nulled and their old columns kept in the audit details |
| RelabelColumns.ContaminatedIff | scripts/restate_oddschecker_betfair_labels.py:402-447 | which closes are withdrawn, and what a withdrawn one still says |
| RelabelColumns.WithdrawalsRestore | scripts/restate_oddschecker_betfair_labels.py:402-448 | the details suffice to restore every withdrawn close, and a pick without one was not touched |
| SettlementRepair.Store.Restate | scripts/restate_tennis_spread_grades.py:170-198 | one selection drives audit, delete and re-open |
| SettlementRepair.Store.CollectGap | app/settlement/engine.py:367-375 | the gap: open picks past the delay of their sport for which no source has a score |
| SettlementRepair.Store.ExpireGap | app/settlement/engine.py:385-455 | the gap rows past the bound, one after the other: voided, or superseded by a settled twin |
| SettlementRepair.Store.ExpireOne | app/settlement/engine.py:393-445 | one pick past the bound: superseded by a settled twin, left to an existing result, or voided |
| SettlementRepair.Store.AuditVoids | scripts/expire_unresolvable_backlog.py:110-122 | the audit insert over the result rows |
| SettlementRepair.Store.ExpireBacklog | scripts/expire_unresolvable_backlog.py:161-211 | an empty book aborts without a change; otherwise the due picks expire in query order, the carve-out is reverted and the rest audited |
| SettlementRepair.Store.RegradeOne | scripts/regrade_tennis_game_spreads.py:365-460 | one target: match, classify, orient, supersede, grade, settle and audit, each guard in program order |
| SettlementRepair.Store.Regrade | scripts/regrade_tennis_game_spreads.py:319-471 | the loop over the targets with its index computes the pass that a direct scan of the source rows specifies |
| SettlementRepair.RunsKeep | app/settlement/engine.py:308-463 | any sequence of restate, expire and re-grade runs keeps "alerted means no result row, settled means exactly one", and never lets two twins of one real bet both carry a result |
| SettlementRepair.RestatementRebuilds | scripts/restate_tennis_spread_grades.py:125-157 | the ten audit rows of a re-opened pick fit exactly one status and one result, those it had |
| RepairRules.RestatedIff | scripts/restate_tennis_spread_grades.py:85-157 | exactly the settled tennis spreads off the sets axis that were decided on at most five units are re-opened without a result |
| RepairRules.FamilyIff | scripts/restate_tennis_spread_grades.py:85-157 | the family in label texts: tennis spreads whose label is neither `spreads_sets...` nor `asian_handicap..._sets`, in any case |
| SettlementRepair.RestatementFrame | scripts/restate_tennis_spread_grades.py:85-157 | picks outside the selection are left as they were |
| SettlementRepair.RegradeRecords | scripts/regrade_tennis_game_spreads.py:292-316 | for each pick a re-grade settles the appended audit rows spell out its status and every column of its new result; other picks get none |
| SettlementRepair.ExpiryAudits | scripts/expire_unresolvable_backlog.py:110-122 | the expiry audit names exactly the voids that stand after the carve-out revert |
| RepairOutcomes.RegradeMeans | scripts/regrade_tennis_game_spreads.py:365-460 | a target stays open without a single classifiable row of its fixture; one that the row grades is settled with that grade exactly when in the end no twin has a result, and is superseded otherwise |
| RepairOutcomes.RegradedScores | scripts/regrade_tennis_game_spreads.py:365-460 | what a re-graded pick stores, in the fields of the one row of its fixture: graded on the games of its own sides, told by canonical name, and void after a walkover or a retirement |
| RepairOutcomes.RegradeSettles | scripts/regrade_tennis_game_spreads.py:365-460 | a complete and consistent row whose games the grade accepts settles the pick, unless a sibling has a result |
| RepairOutcomes.PaidAs | app/settlement/outcomes.py:239-276 | profit and return of every outcome against those of a win and a loss |
| RepairRules.RegradeLeaves | scripts/regrade_tennis_game_spreads.py:189-214 | which rows leave a target as it is |
| RepairRules.TargetIff | scripts/regrade_tennis_game_spreads.py:319-370 | the targets are the open tennis spreads off the sets axis that a restatement re-opened |
| RepairOutcomes.GuardNeverRefuses | scripts/regrade_tennis_game_spreads.py:189-214 | a row classified as played out always passes the set-score guard of the engine |
| RepairOutcomes.ExpiryMeans | app/settlement/engine.py:367-455 | outside the carve-out family exactly the due picks expire: voided when in the end no twin has a result, superseded otherwise; all others are untouched |
| RepairRules.DueIff | app/settlement/engine.py:73-115 | which picks are due, in hours past the kickoff per sport |
| RepairRules.VoidedAs | app/settlement/engine.py:426-442 | the columns of the result an expired pick gets |
| RepairRules.FamilyResultStays | scripts/expire_unresolvable_backlog.py:74-108 | a family result from before the run is deleted, and its pick re-opened, exactly when it carries the note and the timestamp of the run; every other one stays |
| RepairRules.ExpiryRecords | scripts/expire_unresolvable_backlog.py:110-123 | the appended audit rows: three for each void of the run that stands, and no others |
| RepairRules.SiblingsIff | app/settlement/engine.py:693-752 | which two picks are one real bet |
| RepairOutcomes.CarveOutHoldsIff | scripts/expire_unresolvable_backlog.py:161-192 | an expiry run leaves the carve-out family as it was exactly when no due family pick has a twin that carries a result or is due as well, and no family result already carries the note at this timestamp |
| RepairOutcomes.TwinStaysSuperseded | scripts/expire_unresolvable_backlog.py:161-192 | a concrete table of two due twins: the first is re-opened, the second stays superseded |
| ResultIndex.BuildResultIndex | scripts/regrade_tennis_game_spreads.py:130-144 | the loop builds an index whose buckets are the rows of a pair on a date, in order |
| ResultIndex.IndexIsScan | scripts/regrade_tennis_game_spreads.py:147-186 | a row is matched exactly when a scan of all rows finds it to be the one result under the date discipline |
| ResultIndex.PermutationInvariant | scripts/regrade_tennis_game_spreads.py:130-186 | neither the row nor the reason depends on the order of the rows |
| ResultIndex.SwapSwapsGames | scripts/regrade_tennis_game_spreads.py:381-407 | swapping home and away finds the same row with home and away games swapped |
| ConfigParsers.ParseMarketMap | app/config.py:47-65 | the loop computes the specified pairs or fails |
| ConfigParsers.MapParsesIff | app/config.py:54-65 | parsing succeeds exactly when every entry that is not blank is well formed and no two share a key, and gives their pairs in order |
| ConfigParsers.MapRoundTrip | app/config.py:47-65 | printing well-formed pairs with distinct keys and parsing them gives them back |
| ConfigParsers.StripSplits | app/config.py:54-65 | every text is its stripped form between blanks, with no blank at either end of it |
| ConfigParsers.StripPadded | app/config.py:54-65 | blanks around a text without any at its ends strip off again |
| ConfigParsers.ParsePrintParse | app/config.py:47-65 | whatever parses is well formed with distinct keys, and printing it loses nothing |
| ConfigParsers.ParseVisibilityOnlyMarkets | app/config.py:200-251 | the loop with its alias and the final de-duplication |
| ConfigParsers.VisibilityParsesIff | app/config.py:229-248 | parsing fails exactly when some entry is malformed |
| ConfigParsers.VisibilityFixedPoint | app/config.py:200-251 | the parsed list has no duplicates, contains soccer:spreads whenever it contains soccer:asian_handicap, and parses back to itself |
| Teardown.AcquireLock | app/main.py:42-82 | the lock is held exactly when nothing failed, and its connection is left open besides only when the query on it ends outside Exception |
| Teardown.Startup | app/main.py:280-342 | the locals at each failing stage describe exactly what was acquired before it |
| Teardown.RunCleanupSteps | app/main.py:205-244 | every step is attempted, and failures become notes on a primary error, one error, or a group |
| Teardown.Lifespan | app/main.py:258-385 | for every failing stage and every set of failing cleanups each held resource gets one release attempt, a running scheduler first and the engine last, and the triggering error is never replaced |
| Teardown.NothingLeaksIff | app/main.py:258-385 | every existing resource is released exactly unless the scheduler builder fails after creating a client of its own, or the lock query ends outside Exception on its open connection |
| Teardown.CancelledLockLeaks | app/main.py:42-82 | after a cancelled lock query only the engine is released and the connection still exists |
| Teardown.FailedBuilderLeaks | app/main.py:325-332 | after a builder that fails with one client everything but that client is released |
| Teardown.Jobs.Wait | app/main.py:172 | waiting returns early only when all awaited futures are terminal |
| Teardown.Jobs.CutWait | app/main.py:172 | a wait ended by a cancellation promises nothing but that finished futures stay finished |
| Teardown.Jobs.ShutdownGracefully | app/main.py:146-202 | the scheduler is told to stop exactly once; afterwards each captured job is terminal, the drain deadline has passed, or a cancellation hit the finally block; one during the grace wait still drains the captured jobs, and of several faults the latest surfaces |

## Left out

- Numbers: odds, edges, stakes and fair values are exact reals; rounding, decimal
  quantisation and overflow of floating point are not modelled.
- Given quantities: Kelly fractions, the same-event haircut, devigged fairs, steam,
  shots and meta-model scores, and the grade of a spread under a score enter as
  inputs.
- Text is ASCII; Unicode digits, case folding and blanks are not modelled.
- Databases: a commit is one atomic step; a session that fails to close after it,
  concurrent writers of the odds table, and settlement workers interleaving inside
  a transaction are not modelled.
- `_persist_and_reserve` without a configured database, and a cycle that crosses
  midnight, are not modelled; the day is fixed per call.
- Snapshot persistence resolves event references to event rows; the odds log keys
  rows by reference, and an event not reported successful wrote nothing.
- Group-level drops before the value scan (unsettleable, tennis game lines, integer
  totals, thin coverage), annotation counters and notes of the candidate loop.
- `_detail_matched_books`, the settlement-time close and the trusted-close
  classification; a close reason is an input of the re-price step.
- LineCoherence.BuildLookup: the choice of the current book and the anchor capture
  time are computed from the line's books and times, which it delivers.
- VocabMerge.PairsUntorn: assumes that capture keys match priced keys, as
  `group_market_prices` provides.
- OffWindow.BoundedWaiting: fetches return, and stamps increase; the URL allowlist
  is a parameter, and a page below a full higher band may wait forever. A re-price
  inside the poll window also stamps a pick as attempted; here only passes do.
- RelabelColumns.UndoRestores: counts and printing are left out, and a second run of
  the script is not claimed to change nothing.
- SettlementRepair.RestatementRebuilds: the row identity of a deleted result is not
  audited and so not rebuilt.
- SettlementRepair.Store.Regrade: the stake and odds a pick settles at are columns of
  it (manual bet logs, blended prices and exchange commission are not modelled), and
  the report counters are left out.
- SettlementRepair.Store.ExpireBacklog: the score book's lookup and the unordered team
  key of a fixture are inputs; the report and the advisory locks are left out.
- ResultIndex.BuildResultIndex: canonical names are a parameter.
- Revalidation.OneAlertPerCrossing: an alert counts as handed out when the dispatcher
  is called; a dispatch that fails is logged there and not repeated.
- Demotion.ScanCandidates: audit and persistence failures are not modelled; whether
  a volume row was newly inserted is an input.
- Remaining settings parsers, scraping, notification, dashboard, backtests and
  schema migrations.
