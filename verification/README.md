# Key Collective: the gateway's core logic, modelled and verified

This project models the parts of the Key Collective gateway that carry state over time or transform
text and money, and proves what they promise:

- the incremental server-sent-events transformer, which buffers chunks, cuts them into lines and
  reprints events (`SseLines`, `SseParser`, `SseChunking`, `SsePrinting`, `SseFields`);
- the four sliding windows that admit requests: per-key rate limiter, tenant quota, demo sandbox and
  pool coordinator, all measured against a log of every admission ever made (`Windows`, `Ledger`,
  `RateLimiter`, `RateLimiterRuns`, `TenantQuota`, `TenantRuns`, `TenantLedger`, `TenantRetry`,
  `TenantRetryRuns`, `DemoSandbox`, `DemoRuns`, `DemoRetry`, `DemoDaily`, `DemoBreaking`, `PoolCoordinator`, `CoordinatorRuns`);
- the lazily cooling circuit breaker with its cache over a store (`CircuitBreaker`, `BreakerRuns`,
  `BreakerRecords`);
- round-robin key selection, the alias index, candidate resolution and failover (`KeySelector`,
  `Sorting`, `ModelRegistry`, `RegistryHistory`, `Cascade`, `CascadeFields`, `Failover`);
- community debt, token pricing and microdollar text (`Debt`, `Cost`, `Money`, `Text`, `Decimal`).

## How the model is built

Every object that the source updates in place is a class here. Each of its methods is proved to do
one *step*: a function from the old abstract state to the new one (`View() == Step(old(View()))`).
Runs are sequences of such steps with a clock that never goes back, evictions and restarts included,
and the theorems are about all runs. Reference definitions (a one-pass line split, a log of all
admissions, a breaker without a cache, a history of brakes, a linear scan, the fields of a line by name
and value, a ledger of debt operations) are written without looking at the steps and caches they are
compared to.

Storage is a value the step reads and writes; one public asynchronous method is one step with one
clock reading; upstream calls and key acquisition are an oracle.

Findings, each with the lemma that proves it:

- Stale pruning lets a demo address exceed its daily limit exactly when one request more than the
  limit can be packed into less than a day: times that keep four distance inequalities, with an idle
  time long enough to be forgotten in (`DemoDaily.DailyIpLimitIffUnpackable`, for every
  configuration). No packing takes less time than `DemoBreaking.Fastest` says, and unless the minute
  falls strictly between the bursts that stay within the pool's minute limit and one burst more, one
  takes just that (`DemoBreaking.PackingTakes`, `DemoBreaking.TightIsPacking`), so that the limit is
  kept iff that time is a day, nothing is admitted, or the global daily limit is no higher
  (`DemoBreaking.DailyIpLimitExactly`). At the deployed limits six requests take 64 minutes
  (`DemoBreaking.DailyIpLimitFailsAsDeployed`). Whatever the other limits are, only a stale time of a
  day less one millisecond is safe (`DemoBreaking.DailyIpLimitForAllLimits`).
- The jail thresholds work in whole percent, so they depart from the ratios in the repository's
  README exactly between 50% and 51% and between 100% and 101% (`Debt.DocumentedExactlyWhen`).
  The model follows the code.
- The daily decay of three tenths for trusted contributors is never applied, because trust is cleared
  first (`Debt.TrustedRateIsNeverUsed`).
- The wait a tenant is told for the minute limits is never a second longer than needed
  (`TenantRetry.EarlyRetryIsRefused`), but it may be too short. A wait is long enough exactly when the
  weight that leaves the window in its course makes up for what was missing
  (`TenantRetry.MinuteRetryExactly`, `TenantRetry.ProjectRetryExactly`). At one tier
  and with a window longer than a second, it is long enough in all runs exactly for requests of
  weight one that fit the limit (`TenantRetryRuns.MinuteWaitHelpsExactly`), and against a project's
  limit, for requests that fit it, exactly where the tier is limited to at most one more than the
  project (`TenantRetryRuns.ProjectWaitHelpsExactly`).
- The wait for the tenant's daily limit is always a whole day. For requests that fit the
  limit and day windows of at most a day that is long enough (`TenantRetry.DayWaitSuffices`), and it
  may be far too long: at every tier with a minute limit of at least one there is a run in which half
  a second would do (`TenantRetryRuns.DayWaitCanBeTooLong`). When less is enough is told by
  `TenantRetry.DayRetryExactly`.
- The alias index and the scan disagree exactly on aliases overridden by a non-empty id that is not
  an active registered model (`ModelRegistry.IndexAgreesWithScan`, `ModelRegistry.IndexDisagreesAt`).
- A `maxFallbacks` below -1 does not mean "none": it keeps candidates counted from the end of the
  list (`Failover.BudgetBoundsAttempts`, `Failover.BudgetFailsAt`).
- What an admitted demo request reports as the global count of the last minute
  (`DemoSandbox.Sandbox.RecordRequest`) is the number of requests held for a day. It is the count of
  the minute exactly when the pool admitted nothing in the day before that minute
  (`DemoRuns.ReportedMinuteExactly`); at the deployed limits two requests a minute apart are enough
  for a wrong one (`DemoRuns.ReportedMinuteFails`).
- A demo address that used up its day is told to come back when its oldest request is a day old, but
  the prune an hour after its last request lets it in again: the refusal recurs iff no prune in
  between found the address stale (`DemoRetry.DemoRetryIsLeast`,
  `DemoRetry.DayRefusalIsForgotten`).

## Model

| member | source | states |
|---|---|---|
| SseLines.ScanInTwoParts | src/proxy/sse/transformer.ts:224-261 | Scanning a, then what it left in the buffer followed by b, finds the lines of a + b, wherever the cut is: also between CR and LF. |
| SseLines.ScanIsOnePassSplit | src/proxy/sse/transformer.ts:224-261 | The buffered scan cuts a whole text exactly as one pass over it that ends a line at CRLF, LF or CR. |
| SseLines.LeftoverShape | src/proxy/sse/transformer.ts:247-261 | What stays in the buffer holds no newline, except for one CR at its edge while not flushing. |
| SseLines.ScanUnlines | src/proxy/sse/transformer.ts:224-241 | Lines printed with a LF each are scanned back as they were, and nothing is left over. |
| SseParser.SseTransformer.constructor | src/proxy/sse/transformer.ts:52-90 | A new transformer has an empty buffer, no pending field, no event and nothing sent. |
| SseParser.SseTransformer.HandleTransform | src/proxy/sse/transformer.ts:146-178 | A chunk is forwarded in passthrough mode, appended to the buffer, and all complete lines are handled. |
| SseParser.SseTransformer.HandleFlush | src/proxy/sse/transformer.ts:183-205 | The flush handles all lines, the unended rest as a line, and dispatches an unfinished event. |
| SseParser.SseTransformer.ParseBuffer | src/proxy/sse/transformer.ts:224-241 | The shrinking loop does to the whole state what handling the scanned lines in order does. |
| SseParser.SseTransformer.FindNextNewlineIndex | src/proxy/sse/transformer.ts:247-261 | The index of the first newline, or -1 when there is none or it is a CR at the edge that must wait. |
| SseParser.SseTransformer.ProcessLine | src/proxy/sse/transformer.ts:267-320 | A blank line dispatches what is dispatchable; comments, data, event, id and retry fields update the pending event; all else only its raw text. |
| SseParser.SseTransformer.DispatchEvent | src/proxy/sse/transformer.ts:325-376 | The pending fields become one event, are cleared, and in events mode one text is sent. |
| SseParser.SseTransformer.Format | src/proxy/sse/transformer.ts:355-368 | The printed event: the fields present in fixed order, one data line for each line of the data, a blank line. |
| SseChunking.FeedInTwoParts | src/proxy/sse/transformer.ts:146-178 | Feeding a and then b leaves the same buffer, pending fields, events and output text as feeding a + b, from any state. |
| SseChunking.FeedAllIsFeedWhole | src/proxy/sse/transformer.ts:146-241 | Feeding any list of chunks does what feeding their concatenation does. |
| SseChunking.ChunkingIndependence | src/proxy/sse/transformer.ts:146-261 | Any two ways of cutting one text give the same events, output text and final state after the flush. |
| SseChunking.StreamIsOnePass | src/proxy/sse/transformer.ts:146-261 | A stream of any chunks yields what splitting the whole text in one pass and handling its lines yields. |
| SseChunking.PassthroughForwardsChunks | src/proxy/sse/transformer.ts:162-166 | In passthrough mode exactly the received chunks go downstream, in order and unchanged. |
| SseChunking.ModesAgreeOnEvents | src/proxy/sse/transformer.ts:146-178 | The two modes parse the same events from the same chunks. |
| SsePrinting.StreamedEventsArePrintable | src/proxy/sse/transformer.ts:267-346 | No event that comes out of a stream has a newline in its type or id, or a CR in its data. |
| SsePrinting.StreamSendsPrinted | src/proxy/sse/transformer.ts:354-376 | In events mode one printed text goes downstream for each event, in order, and nothing else. |
| SsePrinting.ReadPrinted | src/proxy/sse/transformer.ts:267-376 | Printable events, printed and read again in any chunks and in either mode, come back with the same type, id, retry and data. |
| SsePrinting.NormalisedStreamRoundTrip | src/proxy/sse/transformer.ts:146-376 | The output of an events-mode stream, read again under any chunking, yields the same events, and in events mode the same text: normalising twice is normalising once. |
| SseFields.StreamMeans | src/proxy/sse/transformer.ts:146-376 | Every stream, in any chunks and either mode, yields the events its lines mean, read by the name before the first colon and the value behind it: of each block the data values joined, the last type and id, the last retry that is a number, and the lines as they came. |
| SseFields.FieldIsRead | src/proxy/sse/transformer.ts:292-312 | A stream of one data, event or id field is one event with that value, of which one leading blank is dropped and nothing else. |
| SseFields.BareDataIsRead | src/proxy/sse/transformer.ts:298-299 | The line `data` alone is an event with empty data. |
| SseFields.OtherLinesAreIgnored | src/proxy/sse/transformer.ts:282-320 | Comments, fields with other names, and other lines without a colon add to the raw text only. |
| Decimal.ParseIntOfPrinted | src/proxy/sse/transformer.ts:313-318 | `parseInt` undoes the printing of any integer on a retry line. |
| Decimal.ParseIntMeans | src/proxy/sse/transformer.ts:313-318 | White space, perhaps a sign, and digits are read as that number whatever follows; without digits nothing is read. |
| Text.TrimIsInner | src/router/registry/registry.ts:88-92 | Trimming takes all white space off both ends, and nothing else. |
| Text.LowerMeans | src/router/registry/registry.ts:88-92 | Each capital letter becomes the small one, and no other character changes. |
| Windows.EveryWindow | src/durable_objects/rate_limiter/limiter.ts:187-210 | If every entry fitted under the limit over the window ending when it was added, then every window of that length, wherever it lies, is within the limit. |
| Windows.KeepSums | src/durable_objects/rate_limiter/window.ts:8-17 | Pruning changes no sum over a window that starts at or after the cutoff. |
| RateLimiter.CalculateRpm | src/durable_objects/rate_limiter/window.ts:22-38 | The backward scan with early exit counts the entries behind the last one outside the window. |
| RateLimiter.CalculateRpd | src/durable_objects/rate_limiter/window.ts:43-57 | The full scan counts exactly the entries inside the window. |
| RateLimiter.CalculateRetryAfter | src/durable_objects/rate_limiter/window.ts:62-95 | Seconds, rounded up and at least 1, until the oldest entry inside the window leaves it. |
| RateLimiter.Limiter.GetData | src/durable_objects/rate_limiter/limiter.ts:147-169 | Returns the cached record or the stored one, pruned, and leaves it in the cache. |
| RateLimiter.Limiter.GetDataSync | src/durable_objects/rate_limiter/limiter.ts:174-182 | Returns the cached record, pruned in the cache too, or nothing when the key is not cached; storage is not read. |
| RateLimiter.Limiter.CheckLimitDetailed | src/durable_objects/rate_limiter/limiter.ts:187-256 | Decides by minute count, day count and budget in that order, with reason, counts, cost and retry-after. |
| RateLimiter.Limiter.Increment | src/durable_objects/rate_limiter/limiter.ts:307-338 | Adds one request, merged into the last entry of the same millisecond, adds the cost, prunes, and writes cache and storage. |
| RateLimiter.Limiter.Admit | src/worker/auth/middleware.ts:556-597 | A check, and an increment of the same cost only when the check allows it. |
| RateLimiter.Limiter.Reset | src/durable_objects/rate_limiter/limiter.ts:470-476 | Forgets one key in cache and storage and touches no other. |
| RateLimiter.Limiter.ClearMemoryCache | src/durable_objects/rate_limiter/limiter.ts:481-483 | Empties the cache and leaves storage alone. |
| RateLimiterRuns.TailCountIsSum | src/durable_objects/rate_limiter/window.ts:22-57 | On strictly increasing timestamps the early exit loses nothing: both scans count the same. |
| RateLimiterRuns.StepConsistent | src/durable_objects/rate_limiter/limiter.ts:147-338 | Every step keeps cached and stored records strictly increasing in time and in agreement with the log of hits and costs. |
| RateLimiterRuns.WindowRefinesLog | src/durable_objects/rate_limiter/limiter.ts:147-338 | After any run of increments, admissions, reads, resets and evictions, both counts, the accumulated cost and the last request time found by a check are those of the log since the last reset. |
| RateLimiterRuns.DecisionFollowsLog | src/durable_objects/rate_limiter/limiter.ts:187-256 | After any run a check refuses for the minute iff the log fills it, else for the day iff the log fills that, else for the budget iff one is set and all that was logged plus the cost exceeds it, with 60 seconds to wait, and else allows the request. |
| RateLimiterRuns.EveryWindowWithinLimits | src/worker/auth/middleware.ts:556-597 | When all increments come from admissions, every minute window holds at most the minute limit, every day window at most the day limit, and the cost never exceeds the budget. |
| RateLimiterRuns.RetryAfterIsLeast | src/durable_objects/rate_limiter/window.ts:62-95 | The retry-after r of a full minute or day window is least: without further hits the window is full up to r - 1 seconds on and has room from r seconds on. |
| RateLimiterRuns.ClientMayRetryAfter | src/durable_objects/rate_limiter/limiter.ts:198-226 | Up to r - 1 seconds on, steps that neither increment the key without a check nor reset it add nothing to its log, and whenever its log is the same, later checks are refused for the same window, minute or day, up to r - 1 seconds on, and never from r seconds on, whatever else happened. |
| CircuitBreaker.BreakerRecord.EvaluateCooldown | src/durable_objects/circuit_breaker/state_machine.ts:23-37 | An open record whose cooldown is over becomes half-open with no successes; any other stays as it is. |
| CircuitBreaker.BreakerRecord.ApplyTrip | src/durable_objects/circuit_breaker/state_machine.ts:42-52 | Opens the record now, with at least the threshold of failures on it. |
| CircuitBreaker.BreakerRecord.ApplyReset | src/durable_objects/circuit_breaker/state_machine.ts:57-65 | The record becomes a fresh one. |
| CircuitBreaker.BreakerRecord.ApplySuccess | src/durable_objects/circuit_breaker/state_machine.ts:70-93 | Closes an open record, counts towards closing a half-open one, clears the failures of a closed one. |
| CircuitBreaker.BreakerRecord.ApplyFailure | src/durable_objects/circuit_breaker/state_machine.ts:98-120 | Opens a half-open record, or a closed one at the threshold; never moves the opening time of an open one. |
| CircuitBreaker.Breaker.GetData | src/durable_objects/circuit_breaker/breaker.ts:85-94 | Loads, evaluates the cooldown, and writes through when it moved the record. |
| CircuitBreaker.Breaker.GetDataSync | src/durable_objects/circuit_breaker/breaker.ts:96-104 | Moves the cached record only, and only if there is one. |
| CircuitBreaker.Breaker.CanExecuteNow | src/durable_objects/circuit_breaker/breaker.ts:116-119 | True exactly when the record, cooled down, is not open. |
| CircuitBreaker.Breaker.Trip | src/durable_objects/circuit_breaker/breaker.ts:126-132 | Trips the current record of one key in cache and storage. |
| CircuitBreaker.Breaker.Reset | src/durable_objects/circuit_breaker/breaker.ts:134-140 | Resets the record of one key in cache and storage. |
| CircuitBreaker.Breaker.RecordSuccess | src/durable_objects/circuit_breaker/breaker.ts:142-148 | Applies a success to the current record of one key in cache and storage. |
| CircuitBreaker.Breaker.RecordFailure | src/durable_objects/circuit_breaker/breaker.ts:150-156 | Applies a failure to the current record of one key in cache and storage. |
| CircuitBreaker.Breaker.ClearMemoryCache | src/durable_objects/circuit_breaker/breaker.ts:233-235 | Empties the cache and leaves storage alone. |
| BreakerRuns.ReflectingCopiesCoolAlike | src/durable_objects/circuit_breaker/state_machine.ts:23-37 | A copy that already moved to half-open and one that did not look the same to every later reader. |
| BreakerRuns.AnswersAreTruth | src/durable_objects/circuit_breaker/breaker.ts:85-156 | The asynchronous answers of any run are those of a breaker without cache or storage. |
| BreakerRuns.EvictionIsInvisible | src/durable_objects/circuit_breaker/storage.ts:25-56 | Evictions and synchronous reads at any points of a run change no asynchronous answer. |
| BreakerRuns.CacheAndStoreAgree | src/durable_objects/circuit_breaker/storage.ts:25-56 | In every reachable state, cooling the cached and the stored record (the default if absent) at any later time gives the same record. |
| BreakerRuns.RefusedExactlyWhileCooling | src/durable_objects/circuit_breaker/state_machine.ts:23-120 | With thresholds of at least 1, a key is refused at time t iff its last opening has no success or reset after it and t lies before its cooldown's end. |
| BreakerRuns.TripsOnThresholdFailure | src/durable_objects/circuit_breaker/state_machine.ts:98-120 | A closed circuit opens on exactly the threshold-th failure since the last success or reset, and failures while open open nothing anew. |
| BreakerRuns.CanExecuteFollowsHistory | src/durable_objects/circuit_breaker/breaker.ts:85-156 | After any run through cache, store and evictions, `canExecute` is false exactly when the key's own history blocks it. |
| BreakerRecords.RecordFollowsHistory | src/durable_objects/circuit_breaker/state_machine.ts:23-120 | After any run through cache, store and evictions, every field of the record read is told by the key's history: phase, failures, successes, and the times of the last failure, the last success and the opening. |
| Debt.ProcessDailyDebtReset | src/quota/tenant/debt.ts:42-69 | One daily reset: a debt-free day lengthens the streak; a debtor loses streak and trust and a fifth of the debt. |
| Debt.SoundSteps | src/quota/tenant/tenant_do.ts:189-246 | Accruing, decrementing and daily resets keep trust equal to a streak of more than 30 days and the debtor's ceiling up to date. |
| Debt.JailExactly | src/quota/tenant/debt.ts:13-40 | HARD_JAIL iff there is debt and no contribution or 100 debt >= 101 contributed; SOFT_WARNING iff 51 contributed <= 100 debt < 101 contributed with debt and contribution. |
| Debt.DocumentedExactlyWhen | README.md:28-31 | The status is the documented one iff the ratio lies neither strictly between 50% and 51% nor between 100% and 101%. |
| Debt.DocumentedFailsAt | README.md:28-31 | A debt of 101 against 200 contributed is documented as SOFT_WARNING and treated as PRISTINE. |
| Debt.TrustedRateIsNeverUsed | src/quota/tenant/debt.ts:50-56 | A debtor is forgiven a fifth, trusted or not; three tenths would leave the same exactly for debts of 1, 2, 3, 5 or 6. |
| Debt.ResetsSettle | src/quota/tenant/debt.ts:42-69 | Repeated daily resets never raise a debt, never clear one completely, and reach a fixed point below 5. |
| Debt.ResetsShrink | src/quota/tenant/debt.ts:54-56 | n resets leave at most (4/5)^n of what a debt has above 4. |
| Debt.DebtorsStayUntrusted | src/quota/tenant/debt.ts:42-69 | From a positive debt, daily resets alone never earn trust. |
| TenantQuota.CalculateUsage | src/quota/tenant/evaluator.ts:25-41 | The weighted sum of the entries inside the window, of the tenant or of one project. |
| TenantQuota.CalculateRpmRetryAfter | src/quota/tenant/evaluator.ts:43-57 | Seconds until the first entry inside the window leaves it, at least 1; 60 if there is none. |
| TenantQuota.EvaluateQuota | src/quota/tenant/evaluator.ts:59-224 | Root minute limit, root day limit, then project limit decide; check-only requests add nothing. |
| TenantQuota.TenantQuotaDO.PruneEntries | src/quota/tenant/tenant_do.ts:120-123 | Only entries younger than the day window stay. |
| TenantQuota.TenantQuotaDO.Persist | src/quota/tenant/tenant_do.ts:125-141 | Prunes, then writes tier, entries, cost and standing. |
| TenantQuota.TenantQuotaDO.EnsureLoaded | src/quota/tenant/tenant_do.ts:143-181 | Loads once from storage, pruned; without stored state the fields stay. |
| TenantQuota.TenantQuotaDO.ConsumeQuota | src/quota/tenant/tenant_do.ts:270-301 | Rejects other tenants, loads, prunes, decides, and records an admission with its weight, project and cost. |
| TenantQuota.TenantQuotaDO.Reset | src/quota/tenant/tenant_do.ts:303-308 | Clears entries and cost, keeps tier and standing. |
| TenantQuota.TenantQuotaDO.SetTier | src/quota/tenant/tenant_do.ts:252-256 | Changes and persists the tier alone. |
| TenantQuota.TenantQuotaDO.AccrueDebt | src/quota/tenant/tenant_do.ts:189-194 | Adds debt and brings the ceiling up to date. |
| TenantQuota.TenantQuotaDO.DecrementDebt | src/quota/tenant/tenant_do.ts:196-202 | Takes off debt, not below zero, adds the contribution, and brings the ceiling up to date. |
| TenantQuota.TenantQuotaDO.Alarm | src/quota/tenant/tenant_do.ts:225-246 | One daily reset of the loaded standing, persisted. |
| TenantQuota.TenantQuotaDO.ClearMemoryCache | src/quota/tenant/tenant_do.ts:183-187 | Forgets entries and cost until the next load. |
| TenantRuns.StepConsistent | src/quota/tenant/tenant_do.ts:120-308 | Every step, evictions and restarts included, keeps loaded and stored state in agreement with the log of admissions. |
| TenantRuns.FoundIsLog | src/quota/tenant/tenant_do.ts:143-181 | What the next request finds is the log of the last day, the cost of the whole log, and the saved tier and standing. |
| TenantRuns.EvictionLosesNothing | src/quota/tenant/tenant_do.ts:143-187 | In every reachable state, clearing the cache or restarting the object changes nothing a later request can find. |
| TenantRuns.EveryWindowWithinQuota | src/quota/tenant/evaluator.ts:59-224 | Between resets, with every tier in play within the caps, weighted admissions stay within the caps in every minute and day window, and a project's within the smaller of tier and sub-cap in every minute window. |
| TenantRuns.EveryProjectWindowWithinSubCap | src/quota/tenant/evaluator.ts:59-224 | Whatever the tiers, unlimited ones included, a project's weighted admissions stay within its sub-cap in every minute window. |
| TenantRuns.StandingInEveryState | src/quota/tenant/tenant_do.ts:189-246 | In every reachable state trust follows the streak and the jail status the debt ratio, exactly. |
| TenantRuns.VerdictByLog | src/quota/tenant/evaluator.ts:59-224 | The first limit exceeded by the logged usage plus the request's weight decides, in the order minute, day, project; the request is admitted iff none is and it is no check; refusals name the logged usage. |
| TenantRuns.WrongTenantExactly | src/quota/tenant/tenant_do.ts:97-101 | A request is rejected iff it names a non-empty tenant other than the object's, and then changes nothing. |
| TenantLedger.LogIsAdmissions | src/quota/tenant/evaluator.ts:176-224 | The log holds exactly the requests admitted since the last reset, each with its time, its count if that is positive and else 1, its cost, and its project unless that is empty. |
| TenantLedger.DecisionFollowsHistory | src/quota/tenant/evaluator.ts:59-224 | After any run a request is answered by the admissions since the last reset, the tier last set or its own, and the limits of the tiers: verdict, minute, day and project counts, and whether a wait is named. |
| TenantLedger.LimitsAreDocumented | src/contracts/v3_types.ts:36-95 | The limits of the tiers: unlimited for admin and ultra, 60 a minute and 10,000 a day for max, 20 and 2,000 for builder and demo, 2 and 50 for probationary, none for suspended. |
| TenantLedger.StandingIsLedger | src/quota/tenant/tenant_do.ts:189-246 | After any run, evictions and restarts included, the next request finds as contributed what was decremented since the last daily reset, as owed what accruals, contributions and daily decay leave, as streak the debt-free days in a row, with trust and ceiling by these, and the cost of the admissions since the last reset. |
| TenantLedger.CeilingExactly | src/quota/tenant/debt.ts:13-27 | The ceiling is 100 iff something is owed against nothing or from 101% on, 150 from 51% on, else 500 for the trusted and 450 for others. |
| TenantRetry.RefusalRecurs | src/quota/tenant/evaluator.ts:59-224 | While nothing else is admitted, a refusal recurs at a later moment iff its own limit is still exceeded by the log. |
| TenantRetry.EarlyRetryIsRefused | src/quota/tenant/evaluator.ts:43-57 | A request refused for a minute limit is refused for the same reason at every moment up to r - 1 seconds on, through evictions, restarts and debt steps. |
| TenantRetry.MinuteRetryExactly | src/quota/tenant/evaluator.ts:43-57 | At any later moment it is no longer refused for the minute limit iff the weight that has left the window is at least the usage named plus its own weight less the limit. |
| TenantRetry.ProjectRetryExactly | src/quota/tenant/evaluator.ts:43-57 | The same for a project's limit and the weight its own entries have freed. |
| TenantRetry.DayRetryExactly | src/quota/tenant/evaluator.ts:109-137 | A daily refusal names 86,400 seconds, and at any later moment it is over iff the weight that has left the day window makes up for what was missing. |
| TenantRetry.DayWaitSuffices | src/quota/tenant/evaluator.ts:109-137 | With a day window of at most a day, a day later the request is no longer refused for the daily limit iff it fits that limit at all. |
| TenantRetry.RetryHelpsSingleRequests | src/quota/tenant/evaluator.ts:43-57 | A request of weight one is not refused for the minute limit from r seconds on, if the usage named in the refusal is within a limit of at least one. |
| TenantRetryRuns.MinuteWaitHelpsExactly | src/quota/tenant/evaluator.ts:43-57 | At one tier with minute limit L, waiting as told helps requests of weight n against the minute limit in all runs iff n is at most L, and is 1 or the window at most a second. |
| TenantRetryRuns.RetryFailsHeavyRequests | src/quota/tenant/evaluator.ts:43-57 | For weights from 2 to L and longer windows, a run in which the request is refused again exactly when it was told to come back. |
| TenantRetryRuns.TooHeavyIsRefusedTwice | src/quota/tenant/evaluator.ts:43-57 | A request over a minute limit even from the empty start is told 60 seconds and refused again. |
| TenantRetryRuns.ProjectWaitHelpsExactly | src/quota/tenant/evaluator.ts:43-57 | Waiting as told helps a project's requests against its limit P in all runs iff they fit P and the tier's own limit is at most P + 1 or the window at most a second, or they exceed the tier's limit, and so are never told. |
| TenantRetryRuns.RetryFailsOtherProjects | src/quota/tenant/evaluator.ts:43-57 | For requests within P at other tiers and longer windows, a run in which the wait is taken from another entry of the tenant and the project is refused again. |
| TenantRetryRuns.DayWaitCanBeTooLong | src/quota/tenant/evaluator.ts:109-137 | At every tier with a minute limit of at least one and the deployed windows, a run that ends in a refusal naming a day while the same request is admitted half a second later. |
| DemoSandbox.Sandbox.CheckRateLimit | src/auth/demo/sandbox.ts:107-215 | Decides by address minute, address day, global minute and global day counts, in that order, with the counts and the wait. |
| DemoSandbox.Sandbox.RecordRequest | src/auth/demo/sandbox.ts:221-264 | An allowed request is added to the global list and to the address's, each pruned to a day, and reports the address's new counts and the length of the global list; a refused one changes nothing and reports the check. |
| DemoSandbox.Sandbox.PruneStaleWindows | src/auth/demo/sandbox.ts:269-276 | Forgets exactly the addresses whose last request is older than the stale time. |
| DemoRuns.MinuteCountsAddUp | src/auth/demo/sandbox.ts:221-276 | In every run whose prunes spare a minute, the minute counts of the addresses held add up to the global minute count. |
| DemoRuns.EveryWindowWithinDemoLimits | src/auth/demo/sandbox.ts:107-276 | In every run, whatever its prunes, every minute window respects the global limit and every day window the global daily one; in runs whose prunes spare a minute, every minute window respects the limit of each address. |
| DemoRuns.DailyIpLimit | src/auth/demo/sandbox.ts:107-276 | The daily limit of an address holds in every window when prunes spare a day less a millisecond. |
| DemoRuns.DeployedLimits | src/auth/demo/constants.ts:11-15 | At the deployed limits every minute holds at most five requests and every day at most twenty, of one address one a minute. |
| DemoRuns.CountsFollowLog | src/auth/demo/sandbox.ts:107-215 | The counts a check reports are the logged ones: the global minute's in every run, the address's minute's and day's when prunes spare as much. |
| DemoRuns.AdmittedCounts | src/auth/demo/sandbox.ts:221-264 | An admitted request reports one more for its address, in the minute and in the day, than the check before it. |
| DemoRuns.ReportedMinuteExactly | src/auth/demo/sandbox.ts:255-263 | In every run, the global count an admitted request reports is the one of the last minute iff the pool admitted nothing in the day before that minute. |
| DemoRuns.ReportedMinuteFails | src/auth/demo/sandbox.ts:255-263 | At the deployed limits, two requests a minute apart: the second reports 2 where one lies in its minute. |
| DemoDaily.EveryRunKeepsSchedule | src/auth/demo/sandbox.ts:107-276 | In every run, whoever else makes requests and whenever prunes happen, each address's admitted times keep the distances of the four limits, those of its own limits unless it was idle long enough to be forgotten in between. |
| DemoDaily.PackingExceeds | src/auth/demo/sandbox.ts:107-276 | Every packing is a run, with a prune wherever it forgets the address, that exceeds the daily limit by one. |
| DemoDaily.DailyIpLimitIffUnpackable | src/auth/demo/sandbox.ts:107-276 | For every configuration: all runs keep the daily limit of every address iff there is no packing. |
| DemoBreaking.PackingTakes | src/auth/demo/sandbox.ts:107-276 | For every configuration, no packing takes less time than `Fastest`. |
| DemoBreaking.TightIsPacking | src/auth/demo/sandbox.ts:107-276 | A packing that takes just that time, unless the minute falls strictly between d times the floor and d times the ceiling of the quotient of the pool's and the address's minute limits, where d is the idle time. |
| DemoBreaking.SafeHolds | src/auth/demo/sandbox.ts:107-276 | For every configuration: every window of every run respects the daily limit of every address when nothing is admitted, the global daily limit is no higher, or `Fastest` is at least a day. |
| DemoBreaking.DailyIpLimitFails | src/auth/demo/sandbox.ts:107-276 | Otherwise, where the tightest packing takes just `Fastest`, its run exceeds the limit by one within a day. |
| DemoBreaking.DailyIpLimitExactly | src/auth/demo/sandbox.ts:107-276 | Where the tightest packing takes just `Fastest`: all runs keep the daily limit of every address iff nothing is admitted, the global daily limit is no higher, or `Fastest` is at least a day; elsewhere if. |
| DemoBreaking.DailyIpLimitForAllLimits | src/auth/demo/sandbox.ts:269-276 | All configurations with a given stale time keep it iff that is at least a day less a millisecond. |
| DemoBreaking.DailyIpLimitFailsAsDeployed | src/auth/demo/constants.ts:11-15 | At the deployed limits an address makes six requests in 64 minutes where five a day are allowed. |
| DemoRetry.VerdictIsFirstFull | src/auth/demo/sandbox.ts:107-215 | A request is refused for the first full window in the order address minute, address day, global minute, global day, and allowed iff none is full. |
| DemoRetry.WaitIsLeast | src/auth/demo/sandbox.ts:123-203 | The count over a window is unchanged up to s - 1 seconds on and has fallen from s seconds on. |
| DemoRetry.ReachableFits | src/auth/demo/sandbox.ts:107-276 | After any run, whatever its prunes, none of the four windows, as held, contains more than its limit. |
| DemoRetry.DemoRetryIsLeast | src/auth/demo/sandbox.ts:123-276 | After any run, through any requests and prunes that follow: up to s - 1 seconds after a refusal naming s seconds nothing its window counts is admitted unless a prune forgot the refused address, and while nothing counted is, an attempt is refused for the same window iff no prune did; from s seconds on, while nothing counted was admitted, it is not. |
| DemoRetry.NoWaitMeansNever | src/auth/demo/sandbox.ts:123-203 | A refusal that names no wait recurs at every later moment, whatever happens. |
| DemoRetry.DayRefusalIsForgotten | src/auth/demo/constants.ts:11-15 | At the deployed limits, an address that made five requests a minute apart is refused the sixth for 86,100 seconds, and admitted within the hour after one prune. |
| PoolCoordinator.Coordinator.constructor | src/pool/coordinator_do.ts:10-34 | A new instance starts without volumes and with the stored brakes. |
| PoolCoordinator.Coordinator.ReportVolume | src/pool/coordinator_do.ts:87-117 | Adds the volume, drops what is older than five minutes everywhere, and brakes the tenant for 60 seconds, also in storage, when its share exceeds 35%. |
| PoolCoordinator.Coordinator.CleanAndTotal | src/pool/coordinator_do.ts:100-105 | The loop that cleans each tenant's list and sums it up ends with all lists cleaned and the pool's exact total. |
| PoolCoordinator.Coordinator.BrakeStatus | src/pool/coordinator_do.ts:142-148 | Whether the tenant has an unexpired brake. |
| PoolCoordinator.Coordinator.Alarm | src/pool/coordinator_do.ts:45-74 | Drops expired brakes, in storage too when any was dropped, old volumes, and tenants without any. |
| CoordinatorRuns.BrakesAreSurges | src/pool/coordinator_do.ts:87-117 | The brake decision is the one the log of reports calls for. |
| CoordinatorRuns.CoordinatorFollowsHistory | src/pool/coordinator_do.ts:45-148 | For every interleaving of reports, queries, alarms and restarts, a brake is applied iff the tenant's five-minute volume logged since the last restart exceeds 35% of the pool's, and status is true iff the tenant was braked within the last 60 seconds. |
| CoordinatorRuns.CleanupIsInvisible | src/pool/coordinator_do.ts:45-74 | Alarms, whenever they run, change no answer. |
| CoordinatorRuns.AlarmForgets | src/pool/coordinator_do.ts:45-74 | An alarm forgets exactly the brakes that are over, every volume older than five minutes and the tenants left with none, and stores the brakes when any went. |
| CoordinatorRuns.AtMostTwoSurge | src/pool/coordinator_do.ts:107-109 | At no instant do three tenants exceed 35% of the pool. |
| KeySelector.Selector.GetOrLoadIndex | src/durable_objects/key_selector/selector.ts:264-280 | The cached index, else the stored one, else 0, left in the cache. |
| KeySelector.Selector.PersistIndex | src/durable_objects/key_selector/selector.ts:282-292 | Cache and storage hold the new index of the normalised provider; other providers are untouched. |
| KeySelector.Selector.SelectRoundRobin | src/durable_objects/key_selector/strategies.ts:23-32 | Returns the key at the index modulo the list length and advances the index with a wrap at 1,000,000. |
| KeySelector.SelectedIsPicks | src/durable_objects/key_selector/selector.ts:264-292 | Losing the cached index and selections for other providers leave no trace in the keys one provider is given. |
| KeySelector.SelectedByNumber | src/durable_objects/key_selector/strategies.ts:23-32 | The j-th selection for a provider, however its name is capitalised or spaced, takes the key at the start index plus j, wrapped at 1,000,000 and at the length of the list. |
| KeySelector.LeadIsBounded | src/durable_objects/key_selector/strategies.ts:23-32 | Over k selections with w wraps, no position is chosen more than w + 1 times more often than another. |
| KeySelector.LeadIsOne | src/durable_objects/key_selector/strategies.ts:23-32 | Where the list length divides 1,000,000 the lead is at most 1, however often the index wraps. |
| KeySelector.RoundRobinIsFair | src/durable_objects/key_selector/strategies.ts:23-32 | Over any run with cache losses and other providers in between, the counts of any two distinct keys differ by at most w + 1, and by at most 1 if the list length divides 1,000,000. |
| ModelRegistry.Registrar.RegisterModel | src/router/registry/registry.ts:87-93 | Puts the model under its cleaned id, aliases trimmed and empty ones dropped, or rejects an empty id. |
| ModelRegistry.Registrar.UnregisterModel | src/router/registry/registry.ts:107-119 | Removes the model and every override that points to it. |
| ModelRegistry.Registrar.AddAlias | src/router/registry/registry.ts:184-191 | Sets one override under the cleaned alias, or rejects an empty alias. |
| ModelRegistry.Registrar.RemoveAlias | src/router/registry/registry.ts:196-198 | Removes one override and tells whether there was one. |
| ModelRegistry.Registrar.ResolveAlias | src/router/registry/registry.ts:220-250 | A non-empty override, else the first of the cheapest active models with the alias. |
| ModelRegistry.Registrar.GetAliasMap | src/router/registry/registry.ts:339-369 | For each alias: a valid override, else the first match in stable cost order; no other alias is in the map. |
| ModelRegistry.PutIsMapSet | src/router/registry/registry.ts:87-93 | Registering sets one key, leaves every other alone, and keeps the order of insertion. |
| ModelRegistry.UnregisterForgets | src/router/registry/registry.ts:107-119 | After any run, unregistering leaves neither the model nor an override to it behind and touches nothing else. |
| ModelRegistry.RunWellKeyed | src/router/registry/registry.ts:87-119 | In every reachable registry each model sits under the cleaned form of its id, no two under the same, none under the empty key. |
| ModelRegistry.FirstOfSortedIsCheapest | src/router/registry/registry.ts:220-369 | Sorting stably by cost and taking the first match finds what the linear scan for the cheapest finds, ties included. |
| ModelRegistry.IndexAgreesWithScan | src/router/registry/registry.ts:220-369 | After any sequence of registrations, `getAliasMap(true)` and `resolveAlias` agree on an alias iff it has no override, an empty one, or one to an active registered model. |
| ModelRegistry.IndexDisagreesAt | src/router/registry/registry.ts:220-369 | An override to a model that is not registered is answered by `resolveAlias` and missing from the index. |
| RegistryHistory.FoundIsRegistered | src/router/registry/registry.ts:87-119 | Under each name lies the model last registered under it and not unregistered since, as it was registered but for its aliases, which are trimmed and the empty ones dropped. |
| RegistryHistory.OverrideIsLastGiven | src/router/registry/registry.ts:107-198 | An alias is overridden by the trimmed target last given to it, unless it was removed or the target unregistered since. |
| RegistryHistory.AliasStandsFor | src/router/registry/registry.ts:220-250 | An alias resolves to its override if that is not empty, else to the first of the cheapest active models that have it, and to nothing iff none has. |
| RegistryHistory.IndexStandsFor | src/router/registry/registry.ts:339-369 | The alias map holds an override if inactive models count too or it names an active registered model, else the first of the cheapest models it is made from. |
| RegistryHistory.AllModels | src/router/registry/registry.ts:151-154 | All models are listed in the order of the registry. |
| Sorting.SortSorts | src/router/capability/sorter.ts:12-52 | The stable sort sorts, for every total preorder. |
| Sorting.SortPermutes | src/router/capability/sorter.ts:12-52 | The sort neither loses nor repeats an element. |
| Sorting.SortIsStable | src/router/capability/sorter.ts:12-52 | Elements that are all of one rank stay in the order they had. |
| Cascade.OrderIsTotal | src/router/capability/sorter.ts:12-52 | Each comparator, with any ranking of ids, is a total preorder. |
| Cascade.FilterRegistryIsExact | src/router/capability/filter.ts:66-127 | The filtered and sorted list holds exactly the listed capable models, each once, in order. |
| Cascade.ResolveCandidates | src/router/cascade/evaluator.ts:88-199 | The loops over fallbacks and remaining models with a set of seen ids compute the first occurrences of target, fallbacks and sorted rest, or the error of the first failing condition. |
| Cascade.AppendNew | src/router/cascade/evaluator.ts:154-190 | Adding a model keeps the list free of repeated ids and the set equal to the ids in it. |
| Cascade.CandidatesAreExact | src/router/cascade/evaluator.ts:88-199 | After any registrations, a returned list is a duplicate-free permutation of the listed capable models: the capable target first, then fallbacks by first occurrence, then the rest in sort order. |
| CascadeFields.MissingNames | src/router/capability/auditor.ts:12-89 | Each capability is named as missing iff its own condition on the model's and the request's fields fails, in the order of the checks. |
| CascadeFields.ResolvedByName | src/router/registry/registry.ts:256-284 | A name stands for the model registered under it if that is active, and only where none is for the active model registered under what the name is an alias of. |
| CascadeFields.CandidatesMeet | src/router/cascade/evaluator.ts:88-199 | A returned list holds exactly the registered models that are active if that is asked for, have tools, vision and JSON schema where asked for, context window, output limit, provider and price as asked for; each once. |
| CascadeFields.KeywordOutcome | src/router/cascade/evaluator.ts:100-122 | A routing keyword is answered with a list iff a registered model has what is asked for, else with exactly the capabilities asked for by name, or with no provider if there are none. |
| CascadeFields.UnknownOutcome | src/router/cascade/evaluator.ts:124-133 | A model is not found iff the name is no keyword and stands for no active model. |
| CascadeFields.TargetOutcome | src/router/cascade/evaluator.ts:135-199 | For a target: context window error iff its window is too small; mismatch, naming what it lacks, iff it lacks something else and escalation is not allowed or no registered model has all; else a list, headed by the target if it lacks nothing. |
| CascadeFields.PreferredStart | src/router/cascade/evaluator.ts:155-163 | Without explicit fallbacks only the target is preferred, if it has what is asked for. |
| CascadeFields.PreferredGrow | src/router/cascade/evaluator.ts:165-180 | One more fallback is appended to the preferred models iff it stands for a model that has what is asked for and is not among them. |
| CascadeFields.RestIsInOrder | src/router/capability/sorter.ts:12-52 | Behind the preferred models any two are in the order of the strategy: by input price, output price, wider context and id; by higher input price and descending id; or by wider context, input price and id. |
| CascadeFields.UnsortedStays | src/router/capability/sorter.ts:48-51 | Without a strategy the models stay in registry order. |
| Failover.ExecuteCascadeRouting | src/router/cascade/fallback.ts:56-214 | The loop stops at the first attempt that does not fail, with one note for each earlier failure. |
| Failover.FirstSuccessWins | src/router/cascade/fallback.ts:56-214 | The route is the first of the leading 1 + maxFallbacks candidates that answers, with exactly the earlier failures noted in order. |
| Failover.AbortCancels | src/router/cascade/fallback.ts:76-207 | If the first candidate that does not fail is aborted, before or in its call, the routing is cancelled. |
| Failover.ExhaustedWhenNoneAnswers | src/router/cascade/fallback.ts:208-213 | Absent abort, routing is exhausted iff no tried candidate answers, and then every failure is noted in order. |
| Failover.BudgetBoundsAttempts | src/router/cascade/fallback.ts:61-63 | At most 1 + maxFallbacks attempts, none if that is negative, exactly when maxFallbacks is at least -1 or the list too short for the slice to keep any. |
| Failover.BudgetFailsAt | src/router/cascade/fallback.ts:61-63 | With maxFallbacks -2 and three candidates, two are tried. |
| Money.AcceptsExactly | src/constants/financial.ts:60-64 | Text is read iff, trimmed, it is an optional minus, digits, and perhaps a point and digits; all else is an error. |
| Money.SpelledReads | src/constants/financial.ts:66-83 | Such text reads as its signed amount. |
| Money.ReadingTruncates | src/constants/financial.ts:66-81 | Up to six decimals are read exactly; of more, only a remainder of less than one microdollar is dropped. |
| Money.ReadingUndoesPrinting | src/constants/financial.ts:115-152 | For every integer, reading the symbol-free auto or microdollar text gives it back, and the cents text gives it cut towards zero to whole cents. |
| Money.TextShape | src/constants/financial.ts:115-152 | The text is a minus for negative amounts, the symbol if asked for, whole dollars without leading zeros, a point, and two, six, or from two to six decimals without a trailing zero beyond the second. |
| Money.SymbolIsRejected | src/constants/financial.ts:60-64 | Text printed with the dollar sign cannot be read back. |
| Cost.BreakdownAddsUp | src/router/registry/registry.ts:508-564 | The breakdown's total is the cost; completion and reasoning fall short of the combined output cost by at most one; the total falls short of the exact cost by less than three. |
| Cost.BreakdownParts | src/router/registry/registry.ts:531-564 | Each part is the price of its own tokens at its own rate, cut to whole microdollars; negative numbers of tokens count as none. |
| Cost.NegativeRate | src/router/registry/registry.ts:508-564 | At a negative rate a part is the negative of what it is at the positive one. |
| Cost.BatchingBounds | src/router/registry/registry.ts:508-529 | For k usages the sum of costs is at most the cost of all tokens together, which is at most that sum plus 3(k - 1). |

## Left out

- SSE: byte decoding, usage and JSON inspection, callbacks, timing metadata and the `bufferEvents` switch (events are always kept). Text is a sequence of characters, not of UTF-16 units; `retry` is an unbounded integer, where the source's number loses precision.
- Letter case: `toLowerCase` is modelled on ASCII letters.
- Interleavings within one asynchronous method: each is one atomic step with one clock reading, and the middleware's check and increment are one step. Requests that reach the coordinator before it has read its stored brakes are not modelled.
- In-place change of cached objects: a cached record is a value in a map that is written back, so code that keeps a reference to one is not modelled. `CircuitBreaker.BreakerRecord` does change in place.
- Rate limiter: results of `checkLimitSync` and the metrics, remaining-quota and throwing wrappers; default-key resolution.
- Circuit breaker: `recordResult`, `recordStatusCode`, and the queries for the time the circuit reopens.
- TenantQuota.EvaluateQuota: does not model the fields that repeat the request, the limits or the debt, nor the remaining counts, which are limit less count.
- Tenant quota: HTTP handling, conversion of cost inputs. `TenantRuns.EveryWindowWithinQuota` speaks of tiers with finite limits.
- TenantRetry.DayWaitSuffices: speaks of day windows of at most a day; `TenantRetry.DayRetryExactly` is exact for all.
- DemoBreaking.DailyIpLimitExactly: gives one direction only where d, the idle time after which a prune forgets an address, is less than a minute and the minute lies strictly between d times the floor and d times the ceiling of globalRpm / ipRpm; there the exact condition is the one of `DemoDaily.DailyIpLimitIffUnpackable`.
- Debt: the decay factors 0.2 and 0.3 are read as an exact fifth and exact three tenths; the source multiplies in floating point and cuts.
- Demo sandbox: token generation and checking, the limits repeated in results, and restarts of the object, which keeps its windows in memory only.
- Coordinator: provider health, HTTP parsing, alarm scheduling, deployments without storage. The factor 0.35 is read exactly, volumes are integers and non-negative in runs.
- Key selection: least-used, priority and random strategies, health triage, the synchronous round-robin index that is not persisted, and selectors without storage.
- Registry: validation of model fields other than the id, context-window checks, number inputs of prices.
- Cascade: how requirements are read from a request; the locale's order of ids is an arbitrary ranking.
- Failover: request building, cost, key bookkeeping and callbacks of an attempt; candidates, keys and upstream answers are an oracle.
- Money: number inputs, formatted by `toFixed` before they are read; cents and dollar conversions.
- Cryptography, sign-in, database access, console and scripts: nothing there has a property of this kind.
