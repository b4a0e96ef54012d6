# Verified model of the miser gateway

Miser is an LLM gateway: it classifies each chat request into a complexity tier, routes it to the model pinned to that
tier, fails over between catalog candidates, caches answers, and meters what each API key spends. This project models
its stateful decision and accounting core in Dafny and proves what that core promises over whole runs.

- **Catalog split and router** (`Catalog`, `CatalogProperties`, `Router`, `Failover`, `RefreshProtocol`): price bands,
  sticky pins, failover lists, the per-tier failover state machine, and the persist-then-swap refresh with every lock
  region and system call as a step of its own.
- **Calendar** (`Calendar`): the two hand-written copies of the civil-date arithmetic against a calendar walked month by
  month (leap years as in Appendix C of RFC 3339, month lengths as in its section 5.7).
- **Quotas and spend** (`Quota`, `RateLimit`, `SpendLedger`, `BudgetCap`, `Metering`, `StreamRelay`): the minute
  window, the monthly record, reservation and settlement, the cap under concurrency, the byte tail a stream is settled
  on, and the relay that joins them.
- **Audit** (`Audit`): the hash chain, its verifier and its lock-protected appends.
- **Caches and sessions** (`OldestFirst`, `ResponseCache`, `SemanticCache`, `EmbeddingText`, `Session`).
- **Requests** (`Tiers`, `Permissions`, `QualityGate`, `Outcomes`, `Gateway`, `GatewaySafety`, `Handler`): the handler as written,
  and the same requests as interleaved tasks over the shared caches.
- **Usage report** (`UsageReport`, `UsageProperties`).

Objects that the program updates in place are classes, its loops are methods proved against specification functions,
and the laws over runs are lemmas about those functions. Clocks, upstream replies, judge scores, classifier results,
hash functions, similarity and the text codec are arbitrary inputs. Prices, scores and money are reals.

## Where the code is not what its comments or a first reading suggest

The model follows the code; each point is a lemma.

- A stream settled after its key has spent in a newer month erases that month (`LateSettlementErasesNewMonth`,
  `AdjustmentErasesOtherMonth`, `ConservationSurvives`).
- A relayed 4xx or 5xx reserves nothing but is settled all the same, so an error body that reports usage moves the
  record, and even a silent one that ends late erases a newer month (`ErrorRelayKeepsRecord`, `ErrorUsageTakesBack`,
  `SilentErrorErasesNewMonth`).
- The clock is read before the lock is taken: a reading that arrives late reopens its minute for the rate limit, and lets a
  request past the cap of a month that has begun (`LateReadingsAdmitMore`, `LateReadingAdmitsTwice`, `BoundIsApproached`).
- A stream that outlives its deleted key creates the key's record again (`SettlementRevivesForgottenKey`).
- Mid-stream deaths are meant to retire a model; one after the other they do so only at a threshold of at most one
  (`StreamDeathsPromoteOnlyAtThresholdOne`).
- Answers enter the semantic cache under the text of the request as routed, but are looked up by the text as received: a
  request that leaves its `max_tokens` or `temperature` to the route does not look up the text it was stored under
  (`StoredUnderLookupText`, `UnsetLimitChangesText`).
- The exact cache at capacity zero serves its last entry, although the semantic cache's comment holds it up as disabled
  in that case (`CapacityZeroServesLastStore`).
- A carried-over pin can be outside its own failover list, and then no failure moves it (`RefreshedPinInOwnList`,
  `DelistedPinLeavesItsList`, `NoSuccessorNoPromotion`).
- A repeated catalog id is a repeated failover target, which can move a promotion back (`RepeatedIdRepeatsCandidate`,
  `RepeatedIdInCatalogMovesBack`, `ForwardIffNoDuplicates`).
- The answer kept by the quality gate is the better of the two only if the judge scores both
  (`ServedAnswerIsTheBetter`, `SilentJudgeServesWorse`).
- The session tracker can lower a tier by evicting the session it updates; the handler's order of calls prevents it
  (`UpdateLowersExactlyOnSelfEviction`, `LoneSessionIsLowered`, `RecordedTierNeverFalls`).

## Model

| member | source | states |
|---|---|---|
| Calendar.MonthIndexIsWalkedMonth | crates/miser-gateway/src/auth.rs:756-772 | for every second, the index computed with div and mod constants is the Gregorian month reached by walking month lengths one by one from the epoch, reduced to 32 bits |
| Calendar.MonthOfDayUnique | crates/miser-gateway/src/auth.rs:756-772 | the walked calendar is a partition: a day belongs to exactly the one month whose span contains it |
| Calendar.MonthIndexMonotoneUntilCast | crates/miser-gateway/src/auth.rs:756-772 | the index is monotone up to a time if and only if the month number there still fits 32 bits |
| Calendar.MonthIndexStepsAtMonthStart | crates/miser-gateway/src/auth.rs:756-772 | one second later the index is one larger exactly at midnight on the first of a month and otherwise unchanged |
| Calendar.MonthIndexOverThirtyOneDays | crates/miser-gateway/src/auth.rs:756-772 | over any 31 days the budget window turns over once or twice |
| Calendar.MonthIndexWraps | crates/miser-gateway/src/auth.rs:771 | the 32-bit cast does bite: the month numbered 2^32 reads as 0, below the epoch |
| Calendar.CivilDayFitsMonth | crates/miser-gateway/src/usage.rs:245-259 | every timestamp gives a valid date (month 1 to 12, day within that month), and an independent days-from-civil function takes it back to the same day number |
| Calendar.CivilDayRoundTrip | crates/miser-gateway/src/usage.rs:245-259 | every valid date from 1970 on comes back from its own day number |
| Calendar.CivilDayAgreesWithMonthIndex | crates/miser-gateway/src/auth.rs:756-772 | the two hand-written copies of the date arithmetic, each transcribed on its own, agree on year and month for every second |
| Calendar.DayTextOrderIsTimeOrder | crates/miser-gateway/src/usage.rs:245-259 | sorting the day buckets by text is sorting by time up to a moment if and only if that moment is before the year 10000 |
| Calendar.YearTextBeyond9999 | crates/miser-gateway/src/usage.rs:258 | the counterexample: 9999-12-31 does not sort before 10000-01-01 |
| Tiers.EffectiveTier | crates/miser-policy/src/lib.rs:65-94 | the routed tier is one of the classifier tier and the applicable floors, and at or above each of them: their least upper bound |
| Tiers.ComputeEffectiveTier | crates/miser-policy/src/lib.rs:65-94 | raising a local tier floor by floor yields that least upper bound |
| Tiers.EffectiveTierIsTheHighest | crates/miser-policy/src/lib.rs:65-94 | what raises a request and how far: low confidence, tools or a response format to standard, agentic work or tool history to hard, a reasoning task to reasoning, nothing else |
| Catalog.CollectCandidates | crates/miser-gateway/src/catalog.rs:553-584 | the capped loop collects the pin followed by the first eligible models of the sorted pool, 20 in all |
| Catalog.ChooseModel | crates/miser-gateway/src/catalog.rs:507-552 | the pin chosen step by step (best candidate, incumbent looked up, kept or migrated) is the hysteresis specification |
| Catalog.FillPools | crates/miser-gateway/src/catalog.rs:462-506 | one pass over the catalog assigns every tier, builds every pool in catalog order and counts the unranked models |
| Catalog.ComputePartition | crates/miser-gateway/src/catalog.rs:462-594 | the whole split computed by loops equals the specification the laws below are proved of |
| CatalogProperties.BandTierIsInterval | crates/miser-gateway/src/catalog.rs:597-613 | with increasing bands a price is in a tier exactly between the previous maximum (exclusive) and its own (inclusive) |
| CatalogProperties.LowerTierIsCheaper | crates/miser-gateway/src/catalog.rs:597-613 | a lower tier is strictly cheaper whatever the configured maxima are |
| CatalogProperties.PoolMeaning | crates/miser-gateway/src/catalog.rs:462-506 | a pool is sorted by (price, id), a permutation-sized selection, and holds exactly the filtered models of its band; unique ids stay unique |
| CatalogProperties.PartitionLosesNothing | crates/miser-gateway/src/catalog.rs:462-594 | pool sizes and the unranked count add up to the whole catalog |
| CatalogProperties.ModelTiersCover | crates/miser-gateway/src/catalog.rs:462-506 | exactly the ids of the catalog get a tier |
| CatalogProperties.ModelTiersTakeLastEntry | crates/miser-gateway/src/catalog.rs:462-506 | a repeated id gets the band of its last entry |
| CatalogProperties.PinChoiceMeaning | crates/miser-gateway/src/catalog.rs:624-643 | the chosen pin is the cheapest qualified model, and an unqualified one is chosen only when the pool has no qualified model |
| CatalogProperties.PartitionBuildsFailoverLists | crates/miser-gateway/src/catalog.rs:462-594 | with unique ids every tier with a pool gets a list headed by its pin, without repeats, ascending by (price, id) behind it, at most 20 long, qualified, and omitting only models that sort later; a tier without a pool gets none |
| CatalogProperties.ListsHoldTheCandidates | crates/miser-gateway/src/catalog.rs:462-584 | with unique ids every listed model meets each of the operator's filters and the tier's band, and every catalog model that does is listed, disqualified, or left out of a full list of 20 |
| CatalogProperties.CandidatesSeparatedByPrice | crates/miser-gateway/src/catalog.rs:462-613 | every failover candidate of a lower tier is strictly cheaper than every candidate of a higher one |
| CatalogProperties.RepeatedIdRepeatsCandidate | crates/miser-gateway/src/catalog.rs:565-576 | why unique ids are needed: only the pin itself is skipped, so an id listed twice is a failover target twice |
| CatalogProperties.PartitionIsSticky | crates/miser-gateway/src/catalog.rs:507-594 | splitting the same catalog again with the resulting pins returns the very same snapshot |
| CatalogProperties.MigrationSaves | crates/miser-gateway/src/catalog.rs:518-552 | a qualified incumbent is replaced only by the best candidate, and only if that saves the configured ratio |
| CatalogProperties.MigratesExactly | crates/miser-gateway/src/catalog.rs:518-552 | a qualified incumbent is left if and only if some qualified model of the pool stands before it by (price, id) and saves the configured ratio, and then for one that no qualified model undercuts |
| CatalogProperties.SwitchBoundary | crates/miser-gateway/src/catalog.rs:542-550 | with a ratio of a fifth an incumbent at 1.0 is left for a model at 0.8 or less and kept beside a dearer one |
| CatalogProperties.DisqualifiedIncumbentIsLeft | crates/miser-gateway/src/catalog.rs:527-550 | a pin that cannot do its tier's job never outlives a refresh that finds a model that can, whatever the prices |
| CatalogProperties.NewPinIsCheapest | crates/miser-gateway/src/catalog.rs:632-643 | a tier whose pin is not in its pool is pinned to the cheapest qualified model |
| CatalogProperties.MigrationsCutThePrice | crates/miser-gateway/src/catalog.rs:518-552 | over any run of refreshes in which the pin keeps its pool, k migrations leave the price at most p0 * (1 - ratio)^k, so pins cannot thrash |
| CatalogProperties.RefreshedPin | crates/miser-gateway/src/catalog.rs:252-332 | for a tier with candidates, carrying pins over and retaining listed ones changes nothing about the split result |
| CatalogProperties.RefreshMigratesExactly | crates/miser-gateway/src/catalog.rs:252-332 | a refresh moves a tier off a qualified incumbent if and only if the catalog lists a model that meets the filters and the band and is worth it |
| CatalogProperties.RefreshedPinInOwnList | crates/miser-gateway/src/catalog.rs:289-309 | a refreshed pin heads a list that contains it if and only if the tier had candidates, or the carried list held the pin and the catalog still lists it |
| CatalogProperties.CarriedPin | crates/miser-gateway/src/catalog.rs:289-309 | a tier left without candidates keeps its pin and, of its list, exactly the ids the catalog still names; without a pin to keep it has none |
| CatalogProperties.DelistedPinLeavesItsList | crates/miser-gateway/src/catalog.rs:289-309 | the concrete failure: a pinned model that leaves the catalog stays pinned while its list goes on without it |
| CatalogProperties.RefreshIsSticky | crates/miser-gateway/src/catalog.rs:252-332 | refreshing again from the same catalog keeps every pin and every failover list |
| CatalogProperties.RefreshPinsReasoning | crates/miser-gateway/src/catalog.rs:624-643 | when the Reasoning pool holds a reasoning-capable model, the refreshed pin and its whole failover list are reasoning-capable |
| Router.CatalogRouter.LoadOrSeed | crates/miser-gateway/src/catalog.rs:67-160 | starts on the persisted pins if the file decodes, else on the configured ones, with no failure counted |
| Router.SeedTiersAreHighest | crates/miser-gateway/src/catalog.rs:131-160 | a model configured for several tiers is seeded with the highest of them |
| Router.CatalogRouter.ReportSuccess | crates/miser-gateway/src/catalog.rs:180-193 | clears the streak of the current active model and ignores every other model |
| Router.CatalogRouter.ReportFailure | crates/miser-gateway/src/catalog.rs:195-248 | counts in 32 bits, promotes to the next listed candidate at the threshold, resets the count of a model outside its list, and reports exactly the promotion made |
| Router.PromotionIsTheMove | crates/miser-gateway/src/catalog.rs:195-248 | what a failure report returns is exactly the move it made |
| Router.CatalogRouter.Commit | crates/miser-gateway/src/catalog.rs:393-427 | a failed write changes nothing; a successful one makes disk, snapshot, active models and counters those of the new snapshot and lists exactly the moved pins |
| Router.PinChangesMeaning | crates/miser-gateway/src/catalog.rs:393-427 | the moved pins reported are exactly the tiers whose pinned model is new, each with the model it had |
| Router.CatalogRouter.Refresh | crates/miser-gateway/src/catalog.rs:252-332 | either everything is untouched (no answer, an empty catalog, a failed write) or the router is on the split of the fetched catalog |
| Router.FillEmptyTiers | crates/miser-gateway/src/catalog.rs:289-300 | the tier loop carries over exactly the pins of tiers without candidates |
| Failover.PromotionExactlyAtThreshold | crates/miser-gateway/src/catalog.rs:195-248 | over any run of reports, the next one changes the active model if and only if it is the failure that completes the active model's streak since its last success or promotion and a candidate is left; the position moves on by one, never back, and at most candidates - 1 promotions ever happen |
| Failover.RunAgreesWithLog | crates/miser-gateway/src/catalog.rs:180-248 | along every run the stored counter is the true streak of the active model read off the report log |
| Failover.ForwardIffNoDuplicates | crates/miser-gateway/src/catalog.rs:227-248 | promotions move forward from every position if and only if the list has no repeated id |
| Failover.RepeatedIdInCatalogMovesBack | crates/miser-gateway/src/catalog.rs:227-248 | the concrete failure: a catalog that lists x at two prices around y is split so that three failures lead from x to y and back to x, one position earlier |
| Failover.FailoverIsPossible | crates/miser-gateway/src/catalog.rs:195-248 | some run of reports moves a tier off its model if and only if that model is on its list and does not end it |
| Failover.NoSuccessorNoPromotion | crates/miser-gateway/src/catalog.rs:227-240 | a tier whose active model is outside its list, or last on it, never moves, whatever is reported |
| Failover.OffListStreakRestarts | crates/miser-gateway/src/catalog.rs:227-232 | a model outside its own list is never left, and after n failures in a row its count is n modulo the threshold |
| Failover.StreamDeathsPromoteOnlyAtThresholdOne | crates/miser-gateway/src/main.rs:1170-1175 | serial mid-stream deaths, each preceded by the success of its headers, retire a model if and only if the threshold is at most one |
| Failover.ReasoningTierKeepsReasoning | crates/miser-gateway/src/catalog.rs:195-248 | after a refresh that found a reasoning-capable model no run of reports routes the Reasoning tier to one that cannot reason |
| Failover.RefreshStartsFresh | crates/miser-gateway/src/catalog.rs:393-427 | a refresh of a tier with unique-id candidates establishes the hypothesis of the run laws |
| RefreshProtocol.DiskHoldsOneWholeSnapshot | crates/miser-gateway/src/catalog.rs:429-456 | whatever file the process starts on, over all interleavings of refresh steps, reports, failed writes and crashes the file is unchanged until something is published and then the whole text of the newest published snapshot, never a mixture |
| RefreshProtocol.MemoryMatchesDisk | crates/miser-gateway/src/catalog.rs:393-427 | outside the span between rename and swap the router runs on what a start on the file would resume, and once something is published that is the snapshot the file decodes to |
| RefreshProtocol.PublishedSnapshotsFormAChain | crates/miser-gateway/src/catalog.rs:252-332 | every published snapshot is the refresh of the one before it, beginning with the one resumed at the start (the seed, if the file is absent or undecodable), across crashes and restarts |
| RefreshProtocol.RestartResumesPersistedPins | crates/miser-gateway/src/catalog.rs:67-107 | a crash at any step restarts on exactly the persisted pins, or the seed's if no decodable file was ever there, with no streak left |
| RefreshProtocol.UnpublishedRefreshIsInvisible | crates/miser-gateway/src/catalog.rs:393-456 | while nothing is renamed, swapped or crashed, memory is what the outcome reports alone make of it, and the file is untouched |
| RefreshProtocol.UninterruptedRefreshPublishes | crates/miser-gateway/src/catalog.rs:252-332 | a refresh with nothing in its way takes effect: the split is on disk, published and routed by |
| RefreshProtocol.UnserialisedWritersMix | crates/miser-gateway/src/catalog.rs:40-53 | why refreshes take a lock of their own: without it a run of two refreshes' persist steps publishes a text that is neither snapshot |
| Quota.QuotaEnforcer.CheckRateLimit | crates/miser-gateway/src/auth.rs:809-821 | admits on the count of the current minute, starts a new window in a new minute, touches no other key |
| Quota.QuotaEnforcer.CheckBudget | crates/miser-gateway/src/auth.rs:824-832 | a record of another month never refuses a request |
| Quota.BudgetIsOfItsMonth | crates/miser-gateway/src/auth.rs:824-832 | with a positive cap a request is let in if and only if less than the cap is recorded for its own month; another month's record never refuses it |
| Quota.QuotaEnforcer.AdjustSpend | crates/miser-gateway/src/auth.rs:853-863 | adds to the key's record of that window, restarting a record of another window at zero, floored at zero, no other key touched |
| Quota.QuotaEnforcer.Forget | crates/miser-gateway/src/auth.rs:879-886 | removes exactly one key from both tables |
| RateLimit.AdmitsFirstRpm | crates/miser-gateway/src/auth.rs:809-821 | a request is admitted if and only if fewer than rpm requests of its key arrived earlier in its minute, whatever other keys do |
| RateLimit.AdmittedPerMinute | crates/miser-gateway/src/auth.rs:809-821 | each minute admits exactly min(rpm, arrivals) requests of a key |
| RateLimit.AnyMinuteLongSpan | crates/miser-gateway/src/auth.rs:809-821 | any 60-second span admits at most 2 * rpm requests of a key |
| RateLimit.BoundIsAttained | crates/miser-gateway/src/auth.rs:809-821 | that bound is reached by a burst on each side of a minute boundary |
| RateLimit.LateReadingsAdmitMore | crates/miser-gateway/src/auth.rs:809-821 | with the clock read before the lock, so in any order, a minute still admits exactly min(rpm, arrivals) if and only if the limit is zero, or no more arrived than it allows, or counting started but once in that minute |
| RateLimit.SpanWithoutClockOrder | crates/miser-gateway/src/auth.rs:809-821 | the 60-second bound needs no clock order, only that counting starts at most once in each minute the span meets |
| RateLimit.LateReadingAdmitsTwice | crates/miser-gateway/src/auth.rs:809-821 | the concrete failure: with a limit of one, a reading from before the turn of the minute lets a second request of that minute in |
| SpendLedger.RecordIsOwed | crates/miser-gateway/src/main.rs:1120-1169 | conservation: with non-decreasing windows and error bodies that report no usage of their own, a key's monthly record is exactly one estimate per charged call, plus the real cost of every settled stream, plus the reservations of open streams; relayed errors owe nothing |
| SpendLedger.ConservationSurvives | crates/miser-gateway/src/auth.rs:853-863 | one more operation, in any order of windows, keeps the record conserving at the current window if and only if: when it is late, nothing is owed there; when it is not, it is no error body with some other usage, unless that gives back against an empty record |
| SpendLedger.FloorNeverActs | crates/miser-gateway/src/auth.rs:853-863 | on such logs the clamp at zero never fires |
| SpendLedger.ForgetStartsAfresh | crates/miser-gateway/src/auth.rs:879-886 | after a key is forgotten, whatever was recorded, conservation holds of the operations that begin afterwards, and no other key notices |
| SpendLedger.SettlementRevivesForgottenKey | crates/miser-gateway/src/auth.rs:853-863 | a stream that outlives its key creates the forgotten record again, at zero if and only if it used no more than its estimate (or nothing costs anything), else at the overrun |
| SpendLedger.RecordNeverCredit | crates/miser-gateway/src/auth.rs:853-863 | whatever is adjusted, in any order, a record is never negative |
| SpendLedger.AdjustmentErasesOtherMonth | crates/miser-gateway/src/auth.rs:859-861 | an adjustment by any amount, give-back or not, changes only its own window if and only if the key has no positive record of another window |
| SpendLedger.LateSettlementErasesNewMonth | crates/miser-gateway/src/auth.rs:859-861 | the concrete failure: a January stream settled after a February charge erases the February spend |
| SpendLedger.ErrorRelayKeepsRecord | crates/miser-gateway/src/main.rs:1120-1181 | a relayed error leaves the records of all months alone if and only if its body reports no usage, usage equal to the estimate, or less usage against an empty record, and the key has spent in no other month since |
| SpendLedger.ErrorUsageTakesBack | crates/miser-gateway/src/main.rs:1141-1169 | the concrete failure: an error body that reports 10 tokens gives back the cost of 990 that were never reserved |
| SpendLedger.SilentErrorErasesNewMonth | crates/miser-gateway/src/main.rs:1141-1169 | the concrete failure: an error body without usage that ends after the month turned erases the new month |
| BudgetCap.SpendStaysUnderCapPlusInFlight | crates/miser-gateway/src/auth.rs:824-863 | under any interleaving of separate checks (the month read before the lock), charges, refunds and month changes a key's spend never exceeds cap + n * M for n requests in flight adding at most M each, strictly unless the cap is zero, plus one M for each request a late month reading let in past the cap |
| BudgetCap.NewMonthAdmits | crates/miser-gateway/src/auth.rs:824-832 | in every run, after the month turns the next check is let in if there is a cap and room, however the last month ended |
| BudgetCap.ConcurrentChecksOvershoot | crates/miser-gateway/src/main.rs:531-538 | the overshoot is real: n requests checked before any is charged all spend in full, whatever the cap |
| BudgetCap.BoundIsApproached | crates/miser-gateway/src/main.rs:531-538 | no smaller bound holds, with any number of late readings: for every gap some run spends more than the bound less the gap |
| Metering.MeteredStream.PollNext | crates/miser-gateway/src/main.rs:1443-1485 | each poll passes its item through, keeps the last 8192 bytes and hands them to the finalizer once |
| Metering.FinalizedOnceOnTail | crates/miser-gateway/src/main.rs:1405-1485 | however the body is chunked, the finalizer runs exactly once if the body ends and never otherwise, on exactly the last min(8192, length) bytes |
| Metering.ScanUsage | crates/miser-gateway/src/main.rs:1371-1403 | the backward scan returns the usage of the last line that carries one |
| Metering.LinesMeaning | crates/miser-gateway/src/main.rs:1375 | text is read line by line: up to each newline, less a carriage return right before it, and behind the last newline only if there is any |
| Metering.LastUsageMeaning | crates/miser-gateway/src/main.rs:1375-1403 | the usage found is that of a line behind which no line has any |
| Metering.EmptyFrameIsPassedOver | crates/miser-gateway/src/main.rs:1380-1403 | a frame that reports no tokens and the end marker hide no earlier usage |
| Metering.LastFrameCounts | crates/miser-gateway/src/main.rs:1375-1403 | a data frame that reports tokens is the usage of every body it ends |
| Metering.SplitConcat | crates/miser-gateway/src/main.rs:1371-1403 | cutting a text anywhere splits at most the one line across the cut |
| Metering.TailUsageIsBodyUsage | crates/miser-gateway/src/main.rs:1371-1403 | scanning the kept tail equals scanning the whole body if and only if a usage line starts inside the tail or the cut line's fragment happens to read the same |
| Metering.TailUsageOfFramedBody | crates/miser-gateway/src/main.rs:1371-1403 | for a body none of whose lines goes on like a frame inside, scanning the tail equals scanning the body if and only if a usage line starts in the tail or no line before it has any |
| Metering.StreamSettlesOnItsUsage | crates/miser-gateway/src/main.rs:1405-1485 | a stream whose last usage line starts in its final 8192 bytes is settled on the usage of its whole body, however it was chunked |
| StreamRelay.RelayBody | crates/miser-gateway/src/main.rs:1110-1181 | the relay loop over reservation, metered stream, usage scan and settlement leaves the record exactly the relay's operations make of it, and reports every transport break against the model |
| StreamRelay.RelayBelongs | crates/miser-gateway/src/main.rs:1120-1169 | a relay's reservation and settlement meet the identity hypothesis of the conservation law, whatever other requests do in between; an error's settlement always does |
| StreamRelay.StreamCostsItsUsage | crates/miser-gateway/src/main.rs:1110-1181 | end to end: a stream whose usage line starts in its final 8192 bytes raises its key's record by exactly the cost of the prompt and completion tokens its whole body reports, however it was chunked |
| StreamRelay.SilentStreamCostsItsEstimate | crates/miser-gateway/src/main.rs:1138-1156 | a stream that reports no usage in its final 8192 bytes raises the record by exactly its estimate |
| StreamRelay.OpenStreamHoldsItsReservation | crates/miser-gateway/src/main.rs:1177-1181 | until its body ends a stream holds its reservation and nothing else |
| StreamRelay.BreaksAreFailures | crates/miser-gateway/src/main.rs:1170-1175 | every break of the transport is one failure of the model |
| Audit.AuditLog.AppendOutcome | crates/miser-gateway/src/auth.rs:1048-1085 | appends one row chained to the last non-blank line, or changes nothing when the write fails |
| Audit.AuditLog.VerifyChain | crates/miser-gateway/src/auth.rs:1087-1105 | the loop returns the verdict of the specification: the count, or the first broken line and its fault |
| Audit.VerdictMeaning | crates/miser-gateway/src/auth.rs:1087-1105 | a log is accepted with its full length if and only if no line has a fault, and rejected at n if and only if n is the first line with one |
| Audit.AppendKeepsVerdict | crates/miser-gateway/src/auth.rs:1048-1085 | appending extends an accepted log by one and leaves a rejected one rejected at the same line |
| Audit.InterleavedAppendsAreAccepted | crates/miser-gateway/src/auth.rs:1048-1085 | any interleaving of lock-protected appends to an accepted log gives an accepted log with one more line per successful write |
| Audit.UnlockedAppendsFork | crates/miser-gateway/src/auth.rs:1048-1085 | why read and append share a lock: two rows chained to one tail are rejected at the second |
| Audit.LastHashPinsLog | crates/miser-gateway/src/auth.rs:1021-1105 | with a collision-free hash two accepted logs with equal last hash are the same log, line by line and in length |
| Audit.TruncationIsAccepted | crates/miser-gateway/src/auth.rs:1087-1105 | what the chain alone cannot show: every prefix of an accepted log is accepted |
| OldestFirst.EvictIfFull | crates/miser-gateway/src/cache.rs:69-77 | at capacity exactly one entry goes and it is one of the oldest; below capacity none does |
| ResponseCache.ResponseCache.Get | crates/miser-gateway/src/cache.rs:36-58 | a hit is a fresh entry of that key; an expired one is dropped and nothing else changes |
| ResponseCache.ResponseCache.Store | crates/miser-gateway/src/cache.rs:60-89 | stores under the key after making room for one |
| ResponseCache.HitIsLatestStore | crates/miser-gateway/src/cache.rs:36-89 | over any run a hit is precisely the latest response stored for its key, stored less than the time to live ago |
| ResponseCache.SizeBounded | crates/miser-gateway/src/cache.rs:60-89 | over any run the size never exceeds the capacity, or one entry at capacity zero |
| ResponseCache.EntrySurvives | crates/miser-gateway/src/cache.rs:60-89 | a stored entry outlives any operations with fewer than capacity further stores, until it expires |
| ResponseCache.StoredIsServed | crates/miser-gateway/src/cache.rs:36-89 | over any run with fewer than capacity further stores a lookup younger than the time to live gives back the very response stored |
| ResponseCache.CapacityZeroServesLastStore | crates/miser-gateway/src/cache.rs:60-89 | capacity zero does not switch this cache off: the last response stored is kept and served |
| SemanticCache.SemanticCache.Lookup | crates/miser-gateway/src/semantic_cache.rs:78-100 | drops the expired entries and returns the best match among the rest |
| SemanticCache.SemanticCache.Store | crates/miser-gateway/src/semantic_cache.rs:102-143 | adds one entry in place of the oldest when full, and nothing at capacity zero |
| SemanticCache.BestMeaning | crates/miser-gateway/src/semantic_cache.rs:78-100 | a lookup misses if and only if no entry of the tenant reaches the threshold, and otherwise returns the first entry of maximal similarity |
| SemanticCache.HitIsLiveAndOwn | crates/miser-gateway/src/semantic_cache.rs:78-100 | a hit is a live entry of the asking tenant |
| SemanticCache.SizeBounded | crates/miser-gateway/src/semantic_cache.rs:102-143 | over any run the size never exceeds the capacity, so nothing is held at capacity zero |
| SemanticCache.EntrySurvives | crates/miser-gateway/src/semantic_cache.rs:102-143 | an entry outlives fewer than capacity further stores until it expires |
| EmbeddingText.TextTellsSettingsApart | crates/miser-gateway/src/semantic_cache.rs:216-248 | requests with the same messages have the same text if and only if all five generation settings are the same |
| Session.SessionTracker.Get | crates/miser-gateway/src/session.rs:23-33 | a fresh session's tier; an expired one is dropped |
| Session.SessionTracker.Update | crates/miser-gateway/src/session.rs:34-51 | makes room first and only then raises what is left of the recorded tier |
| Session.UpdateLowersExactlyOnSelfEviction | crates/miser-gateway/src/session.rs:38-48 | the tracker alone can lower a session if and only if it is full, the session is one of its oldest, and the new tier is lower |
| Session.LoneSessionIsLowered | crates/miser-gateway/src/session.rs:38-48 | the concrete failure: in a tracker of one session, recording simple for a session at hard lowers it |
| Session.UpdateRefreshesSession | crates/miser-gateway/src/session.rs:34-51 | an update keeps its session alive for the time to live at the given tier or a higher one |
| Session.RecordedTierNeverFalls | crates/miser-gateway/src/main.rs:694-744 | in the handler's get, raise, update sequence the recorded tier never falls while the session lives, between any lookups and updates of other sessions, self-eviction included |
| Session.LaterRequestsRouteNoLower | crates/miser-gateway/src/main.rs:694-744 | every later request of a live session is routed no lower than each earlier permitted one |
| Session.ExpiredSessionStartsOver | crates/miser-gateway/src/main.rs:694-744 | a session found expired starts over on its request's own classification, however high it stood |
| UsageReport.AddRecord | crates/miser-gateway/src/usage.rs:195-224 | the update of totals and five maps by one record takes the tally of a log to the tally of the longer log |
| UsageReport.Summarize | crates/miser-gateway/src/usage.rs:153-241 | the loop with its skips and filters reports the rounded tally of exactly the readable, selected records |
| UsageReport.GroupStep | crates/miser-gateway/src/usage.rs:199-224 | one more record changes its own bucket by itself and no other bucket |
| UsageProperties.GroupConserves | crates/miser-gateway/src/usage.rs:195-224 | before rounding, the buckets of each of the five groupings add up to the totals: requests, both token counts and cost |
| UsageProperties.OneRecordCounts | crates/miser-gateway/src/usage.rs:195-224 | the report of a single record, field by field; with the merge law it decides every report |
| UsageProperties.RoundMicrosError | crates/miser-gateway/src/usage.rs:270-272 | a reported cost is off by at most half a micro-dollar, and a non-negative cost is reported as free if and only if it is below that |
| UsageProperties.ReportAddsUp | crates/miser-gateway/src/usage.rs:153-241 | for every ledger and query all five reported groupings agree with the reported totals: counts exactly, costs up to half a micro-dollar per bucket plus one half |
| UsageProperties.TallyOfConcatenation | crates/miser-gateway/src/usage.rs:153-224 | the rollup of two ledgers end to end is the merge of their rollups, whatever the query |
| UsageProperties.KeyFilterAgrees | crates/miser-gateway/src/usage.rs:185-189 | asking for one key reports exactly that key's line of the unfiltered report, rounding included |
| UsageProperties.ClientFilterAgrees | crates/miser-gateway/src/usage.rs:190-194 | asking for one client reports exactly that client's line of the unfiltered report |
| UsageProperties.WindowSplits | crates/miser-gateway/src/usage.rs:180-184 | a window reports exactly the records from its start on: with those before it they make up the report of all time |
| Permissions.TierPermitted | crates/miser-gateway/src/main.rs:1243-1252 | the scan of the allowlist decides membership up to ASCII case; no key or an empty list permits all |
| Permissions.PermittedByName | crates/miser-gateway/src/main.rs:1243-1252 | a key with an allowlist may use a tier if and only if some name on it, in lower case, is the tier's name |
| QualityGate.ChargeBudget | crates/miser-gateway/src/main.rs:1339-1348 | charges the estimate when there is a key and a price, and is otherwise without effect |
| QualityGate.Settle | crates/miser-gateway/src/main.rs:770-996 | the nested retry block: body, status, headers, tier and model settle together on one call, usage sums every billed call, the budget is charged once per billed call, and the retry's outcome is reported even when it fails |
| QualityGate.BilledTokens | crates/miser-gateway/src/main.rs:892-906 | the recorded usage counts a discarded attempt too |
| Outcomes.ReportOutcome | crates/miser-gateway/src/main.rs:309-339 | a transport error, a 5xx and a 429 count as failures of the model, a 2xx as a success, other errors not at all, and nothing is reported in fixed mode |
| Outcomes.OutcomeMeaning | crates/miser-gateway/src/main.rs:309-339 | status by status: no reply, 429 and 500 to 599 step the router as a failure, 200 to 299 as a success, every other status leaves it untouched, and so does everything in fixed mode |
| Outcomes.CallerErrorsChangeNothing | crates/miser-gateway/src/main.rs:309-339 | no number of a caller's 4xx replies (429 apart) changes the router at all |
| Outcomes.ProviderFaultsPromote | crates/miser-gateway/src/main.rs:309-339 | as many provider faults of the active model in a row as the threshold move a fresh tier on by one candidate, and fewer do not |
| QualityGate.UnjudgedAnswerPasses | crates/miser-policy/src/quality.rs:11-80 | an unjudged answer passes if and only if it only calls tools, or has none of the listed defects and its length class reaches the minimum; the code-fence trigger changes nothing |
| QualityGate.HasCodeMeaning | crates/miser-policy/src/quality.rs:59-65 | an answer counts as code if and only if one of five markers occurs in it; the two longer ones the code also looks for add nothing |
| QualityGate.JudgeDecidesRetry | crates/miser-gateway/src/main.rs:815-846 | a judged answer is retried if and only if its score is short of the minimum, when there is a permitted, configured tier above |
| QualityGate.ChecksDecideRetry | crates/miser-gateway/src/main.rs:805-846 | without a judge's word an answer is retried if and only if it does not pass the deterministic checks |
| QualityGate.RetryIsRouted | crates/miser-gateway/src/main.rs:846-870 | a retry is one tier up, permitted and configured, and goes to that tier's active model when the catalog routes, else to its configured one |
| QualityGate.RetryKeptUnlessWorse | crates/miser-gateway/src/main.rs:928-935 | with both answers judged the retry is served if and only if it scored no less |
| QualityGate.ServedAnswerIsTheBetter | crates/miser-gateway/src/main.rs:907-950 | the served answer is the best of those billed, by every measure the judge's replies leave open, if and only if the judge scored both or only one was billed |
| QualityGate.SilentJudgeServesWorse | crates/miser-gateway/src/main.rs:925-935 | the concrete failure: a first answer scored 0.4 of the 0.5 asked for is replaced by a retry the judge says nothing about |
| GatewaySafety.StoredAnswersAreWhole | crates/miser-gateway/src/main.rs:1014-1055 | in every reachable state of any interleaving, each cache entry has body, status, headers and tier of one and the same successful, fully read call of a non-streaming request: in the exact cache one with the entry's hash, in the semantic cache one of the entry's tenant, under the text that request was sent with |
| GatewaySafety.PlainAnswersAreWhole | crates/miser-gateway/src/main.rs:547-584 | every 2xx answer to a non-streaming request is one successful call's whole answer: fresh, escalated or from the exact cache, of a request with its own hash; from the semantic cache, of its own tenant |
| GatewaySafety.ServedTierIsPermitted | crates/miser-gateway/src/main.rs:730-739 | every answer served, whichever way it came (exact hit, semantic hit, fresh, escalated, streamed), is from a tier its key may use |
| GatewaySafety.CallsAndChargesBounded | crates/miser-gateway/src/main.rs:770-777 | a request makes at most two calls, the second one tier above a delivered first, both permitted, and when it is done has been charged once per chargeable call |
| GatewaySafety.SemanticHitsAreSafe | crates/miser-gateway/src/main.rs:620-679 | a semantic hit answers a plain request without tools, tool choice, tool history or response format, with an answer that calls no tools and was made for the same caller, without an upstream call or charge |
| GatewaySafety.SemanticHitExactly | crates/miser-gateway/src/main.rs:634-644 | a semantic lookup answers if and only if the tenant has a candidate, its tier is permitted, and the judge approves it or, without a judge, it reaches the configured similarity |
| GatewaySafety.SemanticHitsWereApproved | crates/miser-gateway/src/main.rs:634-644 | in every run each semantic hit was served by a step that found a live, similar entry of the asking tenant with the judge's approval, if there is a judge; what it rejects or is silent about is never served |
| GatewaySafety.ExactHitExactly | crates/miser-gateway/src/main.rs:547-560 | an exact lookup answers if and only if a fresh entry stands under the request's hash and its tier is permitted |
| GatewaySafety.ExactAnswerIsReused | crates/miser-gateway/src/main.rs:1014-1021 | a stored answer serves the same request again, body, status and headers, until it expires, for whoever may use its tier |
| GatewaySafety.SimilarAnswerIsReused | crates/miser-gateway/src/main.rs:1039-1055 | a stored answer without tool calls is found by every later request of the tenant with the text it was sent with, unless one at least as similar is |
| GatewaySafety.StoredUnderLookupText | crates/miser-gateway/src/main.rs:745-757 | an answer is stored under the text its own request is looked up by if and only if the route fills in no generation setting the request left out |
| GatewaySafety.UnsetLimitChangesText | crates/miser-gateway/src/main.rs:745-757 | the concrete failure: a request without a limit, routed with 4096 tokens, is looked up as "hi" and stored as "hi max_tokens=4096" |
| GatewaySafety.ApplyKeepsInv | crates/miser-gateway/src/main.rs:540-1208 | each single step of each request, at any moment, keeps the gateway invariant |
| Handler.Complete | crates/miser-gateway/src/main.rs:540-1208 | the handler run start to finish, with its own clock reading at every lookup, charge and store, leaves the answer, both caches, the budget record and the catalog router that the ten steps of the interleaved model leave, every call's outcome reported once and each active model read when its call is made |
| Handler.FirstCallIsRouted | crates/miser-gateway/src/main.rs:715-760 | the first call goes to the tier of the session, classifier and floors together and to its active model when the catalog routes, else to the configured one |
| Handler.RoutableRequestIsCalled | crates/miser-gateway/src/main.rs:715-760 | a classified request whose tier is configured and permitted is called exactly once at first |
| Handler.ForbiddenTierIsRefused | crates/miser-gateway/src/main.rs:730-739 | a tier the key may not use is refused, and one not configured fails, without a call |
| Handler.ChargedForTheLimit | crates/miser-gateway/src/main.rs:1329-1331 | a call is charged for the limit the request sets, else the one of its route, else 512 tokens |
| Handler.PlainRequestConserves | crates/miser-gateway/src/main.rs:770-777 | the charges of a completed request continue any conserving ledger: afterwards the key's record is what the ledger owes with those charges in it |
| Handler.SerialRunIsARun | crates/miser-gateway/src/main.rs:540-1208 | an uninterrupted request is one run of the interleaved model, so every law of the reachable states holds of what the handler leaves behind |

## Left out

- HTTP serving, header encoding, request ids, metrics, tracing, configuration parsing and the admin handlers: no state that the properties depend on.
- The classifier's tables and prompts, the judge, embeddings and cosine similarity: arbitrary inputs and functions.
- Key storage, key validation and key generation: a request starts with its key already established and admitted; the rate and budget checks before it are in `Quota`, `RateLimit` and `BudgetCap`.
- SHA-256, FNV-1a and their collisions: abstract functions, collision-free only where a lemma says so; the exact cache is keyed by an arbitrary number.
- JSON and TOML encoding, catalog entry parsing: a snapshot codec is any function pair whose decoding undoes its encoding, a payload is read by an arbitrary function.
- Floating point: rounding, NaN and signed zero are not modelled; prices and scores are reals, and catalog prices are finite as the parser guarantees.
- Overflow of the 64-bit token and request sums in the usage report: sums are unbounded. The 32-bit month index and failure counter are modelled with their wrap-around.
- UTF-8: strings are sequences of characters, and lossy decoding of a stream body is taken to act line by line.
- Poisoned mutexes and torn appends to the audit and usage files: an append happens whole or not at all; unreadable lines are modelled as the readers see them.
- Names, output prices and context windows of catalog models beyond what filters and ordering read; the fetch itself is an arbitrary answer.
- Gateway.Act: the session's tier and the active models are inputs to its steps, because other requests may change both between any two of them and no cache property depends on their values.
- Handler.Complete: usage records, the session tracker and the relayed stream's reservation are not part of its state, because `QualityGate.Settle`, `UsageReport`, `Session` and `StreamRelay.RelayBody` cover them.
- Session.LaterRequestsRouteNoLower: states the law for requests of one session that are served one after the other, because two requests that read the tier before either writes it can route the later one lower.
- ResponseCache.EntrySurvives: needs insert times that strictly increase, because the code breaks ties by hash-map order.
- The file system beyond an atomic rename, as POSIX rename() promises, and completed writes that survive a crash.
