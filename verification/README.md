# Costwatch, proved

A Dafny model of the cost dashboard's backend (`apps/costwatch/backend/internal/costs`), of its
CSV export, and of the sample API's chain handler, with proofs of what they promise.

- **Cache** (`cache_sweep`, `cache_protocol`, `cache_runs`, `cache_limits`, `cache`). `do` is a step
  machine cut at the lock boundaries, for any number of callers and any interleaving. Each piece is
  also a method of a `Cache` object, proved to be exactly one step. Over whole runs: one call per key
  at a time, coherent answers, no loss of live entries below the cap, a bound on paid upstream calls,
  progress, exact counters.
- **Aggregation** (`upstream`, `rows`, `alignment`, `ranking`, `aggregate`, `aggregate_laws`,
  `panics`, `fetch`, `movers`, `summary`, `ledger`). Pages of sparse groups become dense, ranked
  rows with a cut and an "Other" row; the summary folds the same pages another way; `ledger` reads
  both results straight off the responses. Amounts are exact reals.
- **Time** (`calendar`, `windows`, `demo`). Gregorian days, the query and comparison windows, and the
  periods and emission order of the demo upstream.
- **Keys** (`decimals`, `query_keys`, `tags`, `service`). Normalisation, the tag allow-list, cache keys,
  and what their soundness gives the callers of the service.
- **Export** (`csv`). The CSV printer against a reader for section 2 of RFC 4180 that accepts LF.
- **Chain** (`fanout`). Goroutines, an unbuffered channel and a shared slice, for any N.

Assumptions: `fn` returns and does not panic; the clock a cache reads never goes backwards; for the
statements about eviction, keys are not empty (both callers use non-empty ones, which is proved).

## Where the code and its documentation part

- The cache's doc comment says that `fn` runs exactly once even under concurrency. It runs once per
  flight; it runs again after `ttl`, after a failure, and after an eviction (`CacheLimits.PayTwice`),
  and every time when `ttl <= 0`.
- The cap's comment calls it belt-and-braces next to the tag allow-list. The key space has
  739 * (5 + T) + 1 keys for T tags, which exceeds 256 with no tag at all, and 256 different
  requests is exactly the point up to which paid calls for a key stay `ttl` apart
  (`Service.ServiceSpacingIff`).
- At the very instant of its expiry an entry is neither served nor swept.
- The victim scan uses "" for "none yet", so an entry with an empty key can be passed over.
- A key that comes twice within a period has its later amount appended as a further period; the row
  is then out of step (`Panics.RepeatedKeyShiftsRow`), and past the cut it can index outside the
  "Other" row (`Panics.PanicExample`).
- The monthly demo loop emits one backward or empty period for some windows that are not ahead of
  their start.
- The CSV export leaves times unquoted and ends lines with LF, and RFC 4180 has CRLF.

## Model

| member | source | states |
|---|---|---|
| CacheObject.Cache.constructor | apps/costwatch/backend/internal/costs/cache.go:39-45 | A new cache is an initial state of the protocol, whatever the clock. |
| CacheObject.Cache.Lookup | apps/costwatch/backend/internal/costs/cache.go:50-69 | The code from the first lock to its release is exactly the protocol step: bypass, hit, join or registration, nothing else changed. |
| CacheObject.Cache.CountHit | apps/costwatch/backend/internal/costs/cache.go:57-59 | Counting the hit after unlocking is a step of its own that ends the caller with the value it saw. |
| CacheObject.Cache.EnterFn | apps/costwatch/backend/internal/costs/cache.go:70-72 | Counting the miss and entering `fn` is one step of the leader. |
| CacheObject.Cache.FnReturns | apps/costwatch/backend/internal/costs/cache.go:72-73 | Storing the outcome and closing the channel happen before the key leaves `inflight`. |
| CacheObject.Cache.Publish | apps/costwatch/backend/internal/costs/cache.go:75-83 | The second critical section is an enabled publish step: the key leaves `inflight`, and a success is stored after some legal sweep. |
| CacheObject.Cache.Wake | apps/costwatch/backend/internal/costs/cache.go:63-64 | A follower takes over the value and error of the call it joined. |
| CacheObject.Cache.SweepLocked | apps/costwatch/backend/internal/costs/cache.go:88-105 | On any map and in any iteration order: what is left was stored, is unchanged and has not run out; with n entries in time n are left below 256 and 255 from there on; and the result is one that successive scans for the oldest can leave. |
| CacheObject.Cache.DropExpired | apps/costwatch/backend/internal/costs/cache.go:89-94 | The first loop leaves exactly the entries with `now <= exp`, unchanged. |
| CacheObject.Cache.ScanForOldest | apps/costwatch/backend/internal/costs/cache.go:96-102 | The victim loop computes the scan of some order in which the map is ranged over. |
| CacheObject.Cache.Stats | apps/costwatch/backend/internal/costs/cache.go:113-121 | The three numbers reported are the map size and the two counters. |
| CacheSweep.ScanIsOldestUnlessTrapped | apps/costwatch/backend/internal/costs/cache.go:96-102 | The scan ends on an entry closest to expiry or, only if the empty key is strictly oldest and not alone, has passed that key over. |
| CacheSweep.ScanFindsOldestIff | apps/costwatch/backend/internal/costs/cache.go:96-102 | The scan is right for every iteration order iff the empty key is not stored beside entries that all expire strictly later. |
| CacheSweep.ScanFindsOldest | apps/costwatch/backend/internal/costs/cache.go:95-103 | With non-empty keys the victim always is an entry closest to expiry. |
| CacheSweep.ScanYieldsAKey | apps/costwatch/backend/internal/costs/cache.go:98-103 | The victim is always a stored key, so every turn of the eviction loop removes an entry. |
| CacheSweep.SweepPossible | apps/costwatch/backend/internal/costs/cache.go:88-105 | For every map and instant there is an outcome that meets the sweep specification. |
| CacheSweep.SweepDropsTheExpired | apps/costwatch/backend/internal/costs/cache.go:89-94 | Whatever a sweep leaves was stored, is unchanged and has `now <= exp`. |
| CacheSweep.SweepCount | apps/costwatch/backend/internal/costs/cache.go:88-105 | With n stored entries in time, a sweep leaves all of them if n < 256 and 255 of them otherwise. |
| CacheSweep.SweepTakesTheOldest | apps/costwatch/backend/internal/costs/cache.go:95-104 | With non-empty keys, an entry in time that is taken expires no later than any that is left. |
| CacheSweep.SweptIffOutcome | apps/costwatch/backend/internal/costs/cache.go:88-105 | With non-empty keys the sweep specification admits exactly the outcomes that the code's own scans can produce. |
| CacheSweep.OldestMustGo | apps/costwatch/backend/internal/costs/cache.go:95-104 | In a full house with one entry older than all others, sweeping drops that entry and has no other outcome. |
| CacheProtocol.StepKeepsInv | apps/costwatch/backend/internal/costs/cache.go:49-84 | Every step of every caller, and the clock, keeps the protocol invariant. |
| CacheProtocol.LookupKeepsInv | apps/costwatch/backend/internal/costs/cache.go:55-69 | The first critical section keeps the invariant, with the registered key holding nothing servable. |
| CacheProtocol.LeaderStepKeepsInv | apps/costwatch/backend/internal/costs/cache.go:70-73 | Entering `fn` and closing the channel keep the invariant for every other caller. |
| CacheProtocol.PublishKeepsInv | apps/costwatch/backend/internal/costs/cache.go:75-81 | Retiring the call, sweeping and storing keep the invariant. |
| CacheProtocol.PublishKeepsEntries | apps/costwatch/backend/internal/costs/cache.go:77-80 | After a publication the map holds at most 256 entries, each backed by a successful run for its key that ended `ttl` before the expiry. |
| CacheRuns.SingleFlight | apps/costwatch/backend/internal/costs/cache.go:55-81 | In every reachable state each key has at most one call between registering and publishing, `inflight` names exactly it, nothing servable is stored meanwhile, and runs of `fn` for a key never overlap. |
| CacheRuns.AnswersAreCoherent | apps/costwatch/backend/internal/costs/cache.go:56-83 | A leader gets its own run, a joiner exactly its leader's value and error from a run registered and not yet retired at its lookup, a hit a value published less than `ttl` before its lookup for the same key; failures are never stored and the map never exceeds 256. |
| CacheRuns.PublishLeavesNothingExpired | apps/costwatch/backend/internal/costs/cache.go:75-80 | In every run, right after a successful fetch is stored, every other entry was stored before and had not run out at the sweep's clock reading; the new one expires `ttl` after it was stored. |
| CacheRuns.LiveDroppedOnlyWhenFull | apps/costwatch/backend/internal/costs/cache.go:88-105 | A sweep drops a live entry only while it keeps 255 others that are all live. |
| CacheRuns.LiveEvictedOnlyByFullHouse | apps/costwatch/backend/internal/costs/cache.go:75-105 | A step loses the live entry of a key only if it publishes another key while 256 live entries for other keys are held. |
| CacheRuns.FewKeysKeepLive | apps/costwatch/backend/internal/costs/cache.go:75-105 | With at most 256 keys in use no step ever loses a live entry. |
| CacheRuns.PaidCallsAreSpaced | apps/costwatch/backend/internal/costs/cache.go:55-105 | With at most 256 keys, two entries into `fn` for a key, the earlier not failing, are at least `ttl` apart, in every run. |
| CacheRuns.PaidCallBound | apps/costwatch/backend/internal/costs/cache.go:55-105 | With at most 256 keys, the calls that enter `fn` for a key within a stretch of time of length T and do not fail number at most T/ttl + 1. |
| CacheRuns.SomeCallerCanMove | apps/costwatch/backend/internal/costs/cache.go:61-76 | While a caller is unfinished some caller has an enabled step: nobody waits on a call that will not be closed. |
| CacheRuns.StepSpendsMeasure | apps/costwatch/backend/internal/costs/cache.go:49-84 | Every step of a caller strictly lowers a measure of the steps left; an arrival adds four, the clock nothing. |
| CacheRuns.EveryCallerIsAnswered | apps/costwatch/backend/internal/costs/cache.go:49-84 | The steps of a run are bounded by four per caller, and a state in which no caller can move has answered all of them. |
| CacheRuns.CountersAreExact | apps/costwatch/backend/internal/costs/cache.go:58-70 | Hits equal the callers answered from the cache and misses the runs of `fn`, at every moment. |
| CacheLimits.PayTwice | apps/costwatch/backend/internal/costs/cache.go:86-105 | For any 257 distinct non-empty keys and any gap below `ttl` there is a run from a new cache in which `fn` is entered for the first key twice, the gap apart. |
| CacheLimits.FirstIsTheVictim | apps/costwatch/backend/internal/costs/cache.go:95-104 | When the 257th key comes in, the first may be the victim of the code's scan, and must be if any time has passed since it was stored. |
| CacheLimits.PayTwiceDaily | apps/costwatch/backend/internal/costs/cache.go:86-105 | Such a run exists with the cache keys of 257 daily queries by service. |
| CacheLimits.SpacingHoldsIff | apps/costwatch/backend/internal/costs/cache.go:26-105 | All runs with at most n keys space their paid calls by `ttl` iff n is at most 256. |
| CacheLimits.NothingIsCachedWithoutTtl | apps/costwatch/backend/internal/costs/cache.go:50-53 | Without a positive `ttl` nothing is stored, joined or counted, and every caller runs its own `fn`. |
| Aggregate.Collect | apps/costwatch/backend/internal/costs/aggregate.go:14-50 | The nested loops build exactly the times, one row per key in order of first appearance, and the last unit as currency. |
| Aggregate.CollectPeriod | apps/costwatch/backend/internal/costs/aggregate.go:21-49 | One period adds its readable groups and skips those without key, metric or readable amount. |
| Aggregate.OpenGroup | apps/costwatch/backend/internal/costs/aggregate.go:38-43 | The index map and the slice stay in step: a key is found at its place or opened at the end. |
| Aggregate.AddCharge | apps/costwatch/backend/internal/costs/aggregate.go:38-48 | Zero-filling, appending and adding yield the groups of one charge more. |
| Aggregate.ChargeOneGroup | apps/costwatch/backend/internal/costs/aggregate.go:44-48 | A charge changes the row and total of its own key alone. |
| Aggregate.FillAndTotal | apps/costwatch/backend/internal/costs/aggregate.go:53-58 | Every row is zero-filled to the time axis and the totals are added up. |
| Aggregate.FoldRest | apps/costwatch/backend/internal/costs/aggregate.go:64-73 | The fold succeeds iff no folded row is longer than the time axis, and then holds column sums and the sum of totals. |
| Aggregate.AggregateResults | apps/costwatch/backend/internal/costs/aggregate.go:10-76 | The whole aggregation returns what its specification says, panic included. |
| Ledger.AggregateReadsOff | apps/costwatch/backend/internal/costs/aggregate.go:10-76 | If no two readable groups of a period share a key, the series has one time per period with a start, every group before the fold shows at each period's place the sum of that period's groups for its key, and the total is the sum of all those groups. |
| Ledger.CutAtTwelve | apps/costwatch/backend/internal/costs/aggregate.go:60-73 | With n distinct keys charged, n groups come back if n <= 12 and thirteen otherwise; the first twelve are different charged keys with all they were charged, the thirteenth is "Other" and holds the rest. |
| Ledger.AcceptExact | apps/costwatch/backend/internal/costs/aggregate.go:22-36 | A group counts iff it has a key and a readable UnblendedCost amount, under its first key, with that amount and its unit. |
| Ledger.TimesExact | apps/costwatch/backend/internal/costs/aggregate.go:15-19 | The times are the starts, in order, of the periods that have one. |
| Ledger.CurrencyReadsOff | apps/costwatch/backend/internal/costs/aggregate.go:11-36 | The currency is the last non-empty unit of a counted group, and "USD" if there is none. |
| Rows.KnownKeySnoc | apps/costwatch/backend/internal/costs/aggregate.go:38-48 | A further charge for a known key changes that group and no other. |
| Rows.NewKeySnoc | apps/costwatch/backend/internal/costs/aggregate.go:39-48 | A charge for a new key appends one group padded to the current period. |
| Rows.ChargeAtIsTheCharge | apps/costwatch/backend/internal/costs/aggregate.go:25-33 | Without repeats the cell of a key and period is the one amount charged there, and zero if there is none. |
| Rows.RawRowIsDense | apps/costwatch/backend/internal/costs/aggregate.go:44-47 | Without repeats a row shows its key's amount in every period and zero elsewhere. |
| Rows.RowOutgrowsIff | apps/costwatch/backend/internal/costs/aggregate.go:44-56 | A row gets longer than the time axis iff from some period on its key has more charges than periods are left. |
| Rows.NoRepeatsNoOverflow | apps/costwatch/backend/internal/costs/aggregate.go:44-56 | Without repeats no row outgrows the time axis. |
| Rows.RawRowSumsToTotal | apps/costwatch/backend/internal/costs/aggregate.go:44-48 | A row sums to its key's total, repeats or not. |
| Rows.TotalsConserve | apps/costwatch/backend/internal/costs/aggregate.go:47-57 | The group totals add up to every accepted amount. |
| Alignment.LinesUpIffNoRepeats | apps/costwatch/backend/internal/costs/aggregate.go:44-47 | Charges for given periods and keys line up with the time axis at all prices iff no key is charged twice within a period. |
| Alignment.RepeatBreaksOnes | apps/costwatch/backend/internal/costs/aggregate.go:44-47 | With every amount 1, any repeat within a period puts some row out of step with its sums. |
| Ranking.StableSortIsStableRanking | apps/costwatch/backend/internal/costs/aggregate.go:60-62 | The ranking is descending, keeps ties in order of first appearance and permutes the groups. |
| Ranking.StableRankingIsUnique | apps/costwatch/backend/internal/costs/aggregate.go:60-62 | There is only one stable descending order, so any correct stable sort gives it. |
| Ranking.StableSortKeepsSum | apps/costwatch/backend/internal/costs/aggregate.go:60-62 | Sorting changes no sum over the groups. |
| AggregateLaws.RankingAndCut | apps/costwatch/backend/internal/costs/aggregate.go:60-73 | The result is the unique stable ranking cut at twelve; no folded total exceeds a kept one; "Other" is appended last iff there were more than twelve; twelve or fewer come back as a permutation. |
| Panics.PanicsIff | apps/costwatch/backend/internal/costs/aggregate.go:64-69 | The aggregation panics iff some charged key has, from some period on, more charges than periods left, while at least twelve keys have a larger total, or an equal one and an earlier first charge. |
| Panics.RankIsCount | apps/costwatch/backend/internal/costs/aggregate.go:60-62 | A group stands as far down the ranking as there are keys with a larger total, or an equal one and an earlier first charge. |
| Panics.OverchargedPeriodPanics | apps/costwatch/backend/internal/costs/aggregate.go:64-69 | One period with any twelve keys at 1 and a thirteenth twice at 0 makes the aggregation panic. |
| Panics.PanicExample | apps/costwatch/backend/internal/costs/aggregate.go:64-69 | One such response, written out: one period of fourteen groups. |
| AggregateLaws.DenseRows | apps/costwatch/backend/internal/costs/aggregate.go:14-58 | Without repeats every ranked row has the length of the time axis and carries its key's charges. |
| AggregateLaws.DenseFromSparse | apps/costwatch/backend/internal/costs/aggregate.go:14-73 | Without repeats every returned row is as long as the times, kept cells are the key's charge or 0, and "Other" is the sum over the folded keys. |
| AggregateLaws.Conservation | apps/costwatch/backend/internal/costs/aggregate.go:47-73 | The total equals the accepted amounts, the returned group totals and the returned cells, and sort and fold keep every column sum. |
| Panics.RepeatedKeyShiftsRow | apps/costwatch/backend/internal/costs/aggregate.go:44-47 | A response with a key charged a and b in the first of two periods and c in the second comes back as the row a, b, c over two times. |
| Fetch.FetchPages | apps/costwatch/backend/internal/costs/service.go:163-174 | Following the tokens yields all pages in order, or exactly the message of the call that fails; it succeeds iff no call that is reached fails. |
| Fetch.FetchCosts | apps/costwatch/backend/internal/costs/service.go:163-176 | The message of a call that fails is returned, and anything else is aggregated. |
| Fetch.AddGroup | apps/costwatch/backend/internal/costs/summary.go:121-130 | A group with a key and a readable amount adds to its total, any other adds nothing. |
| Fetch.AddPeriod | apps/costwatch/backend/internal/costs/summary.go:120-131 | A period adds its groups, whether or not it has a start. |
| Fetch.ByService | apps/costwatch/backend/internal/costs/summary.go:114-137 | The page-by-page fold gives the totals per key of all pages together, or exactly the message of the call that fails; it succeeds iff no call that is reached fails. |
| Fetch.PageBreaksDoNotMatter | apps/costwatch/backend/internal/costs/service.go:163-174 | However the periods are cut into pages, whatever non-empty tokens the pages carry and whether the last token is absent or empty, the same results are seen. |
| Fetch.AnyFailingPageFails | apps/costwatch/backend/internal/costs/service.go:165-168 | A failing call, after any number of pages with tokens of their own, none included, makes the whole fetch fail with its message. |
| Fetch.OnlyAFailingPageFails | apps/costwatch/backend/internal/costs/service.go:163-174 | A fetch fails only if its pages lead to a failing call with that message. |
| Upstream.FailureIsPassedOn | apps/costwatch/backend/internal/costs/summary.go:114-137 | Failure has the message of the failing call that is reached, and there is success iff none is. |
| Fetch.RoutesAgree | apps/costwatch/backend/internal/costs/summary.go:114-136 | On periods with starts the per-service fold and the aggregation before its cut have the same keys and totals. |
| Ledger.TotalsReadOff | apps/costwatch/backend/internal/costs/summary.go:114-137 | The totals of a window hold exactly the keys of readable groups, each the sum of all groups for its key, and add up to all that was said. |
| Ledger.SummaryReadsOff | apps/costwatch/backend/internal/costs/summary.go:47-95 | Both window sums are the sums of all amounts in the responses, and each mover's two columns are the sums of its service's groups in the current and in the previous window. |
| Upstream.AllChargesConcat | apps/costwatch/backend/internal/costs/summary.go:114-136 | The charges of pages put together are the charges of the pages put together. |
| Upstream.KeyOrderExact | apps/costwatch/backend/internal/costs/aggregate.go:38-43 | The groups opened are exactly the keys charged, each once. |
| Upstream.KeyOrderByFirst | apps/costwatch/backend/internal/costs/aggregate.go:38-43 | A group opened earlier has its key charged before the later group's key is charged at all. |
| Movers.AddUp | apps/costwatch/backend/internal/costs/summary.go:48-53 | Ranging over a map in any order gives one sum. |
| Movers.SumOverPick | apps/costwatch/backend/internal/costs/summary.go:48-53 | The sum over a set of services does not depend on where the summation starts. |
| Movers.ListMovers | apps/costwatch/backend/internal/costs/summary.go:75-89 | One mover per service of either window, and their differences sum to the difference of the windows. |
| Movers.DeltasAddUp | apps/costwatch/backend/internal/costs/summary.go:82-89 | Over the union of services the differences add up to the change between the windows. |
| Movers.SortMovers | apps/costwatch/backend/internal/costs/summary.go:90-92 | The movers end in descending size of difference with the same contents. |
| Movers.RankMovers | apps/costwatch/backend/internal/costs/summary.go:75-92 | The full mover list: one per service, in descending size of difference, summing to the change between the windows. |
| Movers.DeltaPercent | apps/costwatch/backend/internal/costs/summary.go:54-56 | The percentage times the base is a hundred times the change, and zero when the base is not positive. |
| Movers.Summarize | apps/costwatch/backend/internal/costs/summary.go:47-95 | The summary reads off the two windows: sums, percentage, and the first five of a full ordered mover list. |
| Movers.TopMoversLead | apps/costwatch/backend/internal/costs/summary.go:75-95 | min(5, n) distinct services are kept, each with its current and previous total (0 if absent) and current minus previous, in descending size of difference; none left out moved more than one kept; over all services the differences add up to the change, of which the percentage is reported. |
| SummaryFetch.FetchSummary | apps/costwatch/backend/internal/costs/summary.go:38-97 | The current window's failure is returned first, then the previous window's, each with its message; without a failing call there is a summary of both folds. |
| Calendar.MonthsAbut | apps/costwatch/backend/internal/costs/demo.go:147-148 | Each month starts where the one before ends and has 28 to 31 days. |
| Calendar.YearStartsByFormula | apps/costwatch/backend/internal/costs/summary.go:32-36 | Counting days month by month agrees with the closed form of the Gregorian leap rule for every year. |
| Calendar.MonthLengths | apps/costwatch/backend/internal/costs/summary.go:32-36 | Months have 31, 28 or 29, 31, 30, 31, 30, 31, 31, 30, 31, 30 and 31 days. |
| Calendar.CenturyYears | apps/costwatch/backend/internal/costs/summary.go:32-36 | Of four centuries only the one divisible by 400 is a leap year. |
| Calendar.OrdinaryYears | apps/costwatch/backend/internal/costs/summary.go:32-36 | Other years are leap years iff they are multiples of four. |
| Calendar.FourCenturies | apps/costwatch/backend/internal/costs/summary.go:32-36 | Four hundred years are 146097 days. |
| Calendar.MonthIsUnique | apps/costwatch/backend/internal/costs/summary.go:32-33 | A day lies in one month only. |
| Calendar.DayRoundTrip | apps/costwatch/backend/internal/costs/service.go:136-142 | A day written as a date reads back as the same day. |
| Calendar.DateRoundTrip | apps/costwatch/backend/internal/costs/service.go:136-142 | A valid date turned into a day number comes back, so distinct dates are distinct days. |
| Windows.ComparisonWindows | apps/costwatch/backend/internal/costs/summary.go:31-45 | On every date one window runs from the first of the month up to today, the other from the first of the month before, both day-of-month minus one days long; they share days only in March, as many as that exceeds February, at most two. |
| Windows.SharedDaysCount | apps/costwatch/backend/internal/costs/summary.go:31-45 | The overlap is the number of days that lie in both windows. |
| Windows.MonthlyPeriods | apps/costwatch/backend/internal/costs/demo.go:147-154 | The monthly loop emits the parts of the window month by month, as many as months begin before its end. |
| Windows.EmitMonth | apps/costwatch/backend/internal/costs/demo.go:148-153 | One turn emits the month's part of the window with its length in days as scale. |
| Windows.MonthPartsAbut | apps/costwatch/backend/internal/costs/demo.go:147-154 | Each month's part is non-empty and meets its neighbours at firsts of months. |
| Windows.MonthlyPartition | apps/costwatch/backend/internal/costs/demo.go:146-154 | For start < end the monthly periods run from start to end without gap or overlap, break only at midnights of firsts of months, and their scales add up to the length in nanoseconds over 86400000000000. |
| Windows.BackwardWindow | apps/costwatch/backend/internal/costs/demo.go:147-154 | Otherwise nothing is emitted, or one backward or empty period if the end lies after the first of the start's month. |
| Windows.SteppedPeriods | apps/costwatch/backend/internal/costs/demo.go:155-159 | The step loop emits abutting steps from the start, the last one reaching the end. |
| Windows.DemoPeriods | apps/costwatch/backend/internal/costs/demo.go:146-159 | The granularity picks the loop, and the loop splits the window. |
| Windows.MonthlyCount | apps/costwatch/backend/internal/costs/service.go:138-142 | A monthly query spans days/30 months, one fewer on the first of a month. |
| Windows.PeriodCounts | apps/costwatch/backend/internal/costs/service.go:130-143 | A query yields Days daily, 24*Days hourly and days/30 monthly periods (one fewer on a first); hourly and daily ones are an hour or a day long, abut, and run from the window's start to its end. |
| Windows.HourlyWindow | apps/costwatch/backend/internal/costs/service.go:131-134 | The hourly window ends at the last full hour before or at the instant and is Days times 24 hours long. |
| Windows.DailyWindow | apps/costwatch/backend/internal/costs/service.go:135-137 | The daily window ends at the last midnight before or at the instant and is Days days long. |
| Windows.MonthlyWindowExact | apps/costwatch/backend/internal/costs/service.go:138-142 | The monthly window ends at the last midnight and starts at midnight on the first, Days/30 - 1 months back. |
| Demo.OneEmissionOrder | apps/costwatch/backend/internal/costs/demo.go:109-117 | There is only one ascending listing of a set of names, so map order cannot show. |
| Demo.SortedNames | apps/costwatch/backend/internal/costs/demo.go:113-117 | Gathering names in any order and sorting lists each exactly once, ascending. |
| Demo.BeforeExact | apps/costwatch/backend/internal/costs/demo.go:117 | One name comes before another iff it is smaller at the first place they differ, or ends there. |
| Demo.EmitPeriod | apps/costwatch/backend/internal/costs/demo.go:120-144 | One group per name, in order, each with its amount in USD, under the period's start. |
| Demo.DemoUsage | apps/costwatch/backend/internal/costs/demo.go:81-162 | The demo answers with every period of the window's split, each with all names in ascending order. |
| Demo.DemoDashboard | apps/costwatch/backend/internal/costs/demo.go:119-161 | Demo data never repeats a key in a period: it aggregates without panic, in USD, one time per period, every row carrying its name's amount throughout, and with at least one period there is exactly one row per name before the fold. |
| Demo.DemoIsDeterministic | apps/costwatch/backend/internal/costs/demo.go:17-19 | A query at an instant has one demo answer, and its series has as many points as the query asks for. |
| QueryKeys.MutableQuery.NormalizeInPlace | apps/costwatch/backend/internal/costs/service.go:88-115 | The query's days are rewritten in place on success and kept on rejection, with the rejection the branch gives. |
| QueryKeys.NormalizeReachesNormal | apps/costwatch/backend/internal/costs/service.go:88-125 | Normalisation changes days alone, lands in the allowed ranges, and leaves exactly the normal queries as they are. |
| QueryKeys.NormalizeRejectsIff | apps/costwatch/backend/internal/costs/service.go:88-101 | A query passes iff its granularity is one of the three and its grouping a dimension or an allowed tag; each rejection has its exact condition, an unknown granularity first. |
| QueryKeys.PassesExactly | apps/costwatch/backend/internal/costs/types.go:14-27 | A query passes iff it asks for HOURLY, DAILY or MONTHLY data by one of the five dimensions or by "TAG:" and an allowed tag; both are kept. |
| QueryKeys.HourlyDays | apps/costwatch/backend/internal/costs/service.go:104-105 | Hourly queries get 1 below 1, 14 above 14, and what they ask for in between. |
| QueryKeys.DailyDays | apps/costwatch/backend/internal/costs/service.go:106-110 | Daily queries get 30 for 1 and below, 365 above 365, and what they ask for in between. |
| QueryKeys.MonthlyDays | apps/costwatch/backend/internal/costs/service.go:111-112 | Monthly queries get 30 below 30, 390 above 390, and what they ask for in between. |
| QueryKeys.DecimalInjective | apps/costwatch/backend/internal/costs/service.go:76 | Distinct numbers of days print differently, negative ones included. |
| QueryKeys.CostsKeyInjective | apps/costwatch/backend/internal/costs/service.go:76 | Equal keys come from equal queries, whatever bars the tag holds. |
| QueryKeys.KeyExample | apps/costwatch/backend/internal/costs/service.go:76 | The key of thirty days by service is "costs", "DAILY", "SERVICE" and "30" joined by bars. |
| QueryKeys.CostsKeyIsNotSummary | apps/costwatch/backend/internal/costs/summary.go:19 | No costs key is "summary" and none is empty. |
| QueryKeys.KeysTellNormalQueriesApart | apps/costwatch/backend/internal/costs/service.go:76 | Two normalised queries share a key iff they are equal. |
| QueryKeys.NormalKeyIsAKey | apps/costwatch/backend/internal/costs/service.go:76 | Every normalised query's key is in the finite key space. |
| QueryKeys.KeySpace | apps/costwatch/backend/internal/costs/types.go:21-27 | With T allowed tags there are exactly 739*(5+T)+1 keys, none empty, and they are exactly "summary" and the keys of queries that pass normalisation unchanged. |
| AllowedTags.TrimTidies | apps/costwatch/backend/internal/costs/service.go:40 | Trimming leaves nothing or text without outer white space, and leaves exactly such text alone. |
| AllowedTags.TrimTakesSpace | apps/costwatch/backend/internal/costs/service.go:40 | Text is white space, then its trimmed form, then white space. |
| AllowedTags.SpacesExact | apps/costwatch/backend/internal/costs/service.go:40 | White space is exactly Unicode's twenty-five code points. |
| AllowedTags.AllowTags | apps/costwatch/backend/internal/costs/service.go:36-45 | The allow-list holds exactly the non-empty trimmed keys, no more than were given. |
| AllowedTags.SurfaceIsClosed | apps/costwatch/backend/internal/costs/service.go:32-45 | Only the five dimensions and configured tags pass, each to a key of the key space, which has at most 739*(5+n)+1 keys for n configured ones. |
| Service.SameKeySameRequest | apps/costwatch/backend/internal/costs/service.go:76-83 | Requests, costs or summary, share a cache key iff they are the same request. |
| Service.SourceOfAnswer | apps/costwatch/backend/internal/costs/cache.go:56-83 | Every caching answer comes from a call for the same key with the same outcome. |
| Service.AnswersFitRequests | apps/costwatch/backend/internal/costs/service.go:77-85 | If each fetch fits the request that ran it, every answer fits its own request in every run, so no query gets another's series. |
| Service.AssertionsHold | apps/costwatch/backend/internal/costs/service.go:77-85 | If each fetch returns the type of its request, every caller of `Costs` gets a series and every caller of `Summary` a summary, in every run. |
| Service.KeysAreFromTheKeySpace | apps/costwatch/backend/internal/costs/service.go:72-77 | Callers use only keys of the finite, non-empty key space, which is larger than the cap even with no tags. |
| Service.ServiceBill | apps/costwatch/backend/internal/costs/cache.go:9-12 | While at most 256 different requests are in use, each costs at most T/ttl + 1 successful fetches in any time of length T. |
| Service.ServiceSpacingIff | apps/costwatch/backend/internal/costs/cache.go:23-26 | For up to n different requests the service always spaces its non-failing fetches by `ttl` iff n is at most 256, whatever tags are allowed; the failing run asks for 257 legal daily series. |
| Decimals.DigitsReadBack | apps/costwatch/backend/internal/costs/service.go:76 | Decimal digits read back as the number they print. |
| Csv.QuotedReadsBack | apps/costwatch/frontend/src/lib/format.ts:51 | A key with its quotes doubled reads back, whatever follows the field. |
| Csv.FieldReadsBack | apps/costwatch/frontend/src/lib/format.ts:51-53 | Every written field reads back up to its separator. |
| Csv.LineReadsBack | apps/costwatch/frontend/src/lib/format.ts:51-54 | Fields joined by commas read back as one record. |
| Csv.LinesReadBack | apps/costwatch/frontend/src/lib/format.ts:55 | Lines joined by line breaks read back one record each. |
| Csv.ReadQuotedIsExact | apps/costwatch/frontend/src/lib/format.ts:51 | The reader accepts a quoted field only in the form the exporter writes. |
| Csv.DirtyTimeIsLost | apps/costwatch/frontend/src/lib/format.ts:53 | A time with a comma, quote or line break never reads back as itself. |
| Csv.RoundTripIff | apps/costwatch/frontend/src/lib/format.ts:50-56 | The export reads back as its table iff every time is free of comma, quote, CR and LF and no trailing row is written as nothing. |
| Csv.TableShape | apps/costwatch/frontend/src/lib/format.ts:51-54 | The table is "period" and the keys, then one row per time with its time and a four-decimal value per group, 0 for missing ones. |
| Csv.Fixed4Accurate | apps/costwatch/frontend/src/lib/format.ts:53 | A printed value is a four-decimal number within half of the last place, halves going away from zero. |
| Csv.ExportExample | apps/costwatch/frontend/src/lib/format.ts:50-56 | One export written out: a key with a comma and a quote, and the value 1.5. |
| Fanout.StepKeepsInv | apps/sample-api/main.go:236-263 | Every step of handler and goroutines keeps the invariant on slots, channel and loops. |
| Fanout.JoinIsComplete | apps/sample-api/main.go:236-255 | When the receive loop ends every slot was written exactly once by its own goroutine and holds its call's outcome, and no goroutine is left on the channel. |
| Fanout.NoWriteAfterJoin | apps/sample-api/main.go:253-263 | After the join only the handler can step, and the slice it reads no longer changes. |
| Fanout.StatusIsTheVerdict | apps/sample-api/main.go:257-263 | The status is 200 iff every call came back with 200, and 502 otherwise. |
| Fanout.InterleavingDoesNotMatter | apps/sample-api/main.go:236-263 | Two finished runs whose calls came to the same end in the same state, whatever their order. |
| Fanout.StepSpends | apps/sample-api/main.go:236-263 | Every step lowers the number of steps left. |
| Fanout.NeverStuck | apps/sample-api/main.go:236-255 | Until the handler has answered, some step is enabled. |
| Fanout.EveryChainIsAnswered | apps/sample-api/main.go:222-269 | No run takes more than 5N + 3 steps, and one that cannot go on has answered. |
| Fanout.AnsweredMeansOver | apps/sample-api/main.go:236-269 | A run is over iff the handler has answered: no goroutine is left behind. |
| Fanout.Chain.constructor | apps/sample-api/main.go:236-237 | A request starts with blank slots and no goroutine. |
| Fanout.Chain.SpawnNext | apps/sample-api/main.go:239-252 | A turn of the spawning loop starts the next goroutine alone. |
| Fanout.Chain.BeginJoin | apps/sample-api/main.go:253 | The receive loop begins once all goroutines are started. |
| Fanout.Chain.CallReturns | apps/sample-api/main.go:242-245 | A call coming back changes nothing the handler reads. |
| Fanout.Chain.WriteSlot | apps/sample-api/main.go:241-250 | A goroutine writes its own array slot in place and goes on to the channel. |
| Fanout.Chain.ReceiveFrom | apps/sample-api/main.go:254 | A receive frees one blocked sender. |
| Fanout.Chain.Check | apps/sample-api/main.go:257-263 | The checking loop, early exit included, answers 200 iff every reply was 200, else 502. |
| Fanout.ClampHoldsBoundsIff | apps/sample-api/main.go:271-283 | A parameter stays within its bounds for all inputs iff they are in order and, unless it is "calls", zero lies between them. |
| Fanout.ClampExact | apps/sample-api/main.go:271-283 | Above the maximum a parameter becomes the maximum, within bounds it is kept, missing or below it becomes the minimum for "calls" and 0 otherwise. |
| Fanout.CallsExact | apps/sample-api/main.go:229 | The number of calls is 1 if missing, unreadable or less, 8 if more than 8, and otherwise as asked. |
| Fanout.ClampIsIdempotent | apps/sample-api/main.go:271-283 | Within sound bounds good values are kept, all others are changed, and clamping again changes nothing. |
| Fanout.OkVouchesForACall | apps/sample-api/main.go:229-263 | A chain runs one to eight calls, so a 200 always stands for at least one worker answer of 200. |

## Left out

- The AWS SDK, HTTP, JSON, Prometheus, logging and static files: the upstream is a finite chain of pages or an error.
- Floating point: amounts are exact reals, so rounding, infinities and NaN are absent; a text amount is absent, unreadable or a number.
- Locks, atomics and addresses as such: the cache is cut where the mutex is taken and released, call records are known by index, and the counters step with their callers.
- A panicking `fn`, which would leave its key in flight for ever.
- Library sorts: the stable and the plain sort are stood in for by insertion sorts; what the results say is proved unique (stable) or holds of any correct sort (movers).
- Forecast, `FetchedAt` and the currency of the summary: passed through.
- `mapCEError`, `writeServiceError` and the 503 answer of the chain handler without a worker URL: one branch each.
- The demo's amounts (`wave`, base tables, formatting to six decimals) and its period ends: given as a function of name and period, and not read by the aggregation.
- Formatting and parsing of dates: windows are instants and day numbers; years beyond four digits are not distinguished.
- `toFixed` from 1e21 on, where JavaScript switches notation.
- The HTTP exchange of a chain call beyond its status or error; the response body is not read by the source either.
- Spacing of failing fetches: a failure is not stored, so the source does not space or bound them, and the bounds on paid calls count the runs of `fn` that do not fail.
- The other handlers of the sample API, the views, charts and the rest of `format.ts`, and all infrastructure code.
