# Tender-outreach dashboard: analytics shaping and input validators

This project models two parts of the dashboard backend:

- **The row-shaping layer of the analytics service.** Each operation sends one SQL query and
  turns the returned rows into a KPI structure. The model takes each query result as an
  input sequence of rows and verifies what happens after it:
  - the zero-guarded percentages of the KPI snapshot and of the historical series;
  - the per-status tally of the performance metrics;
  - the sentiment and interest tallies;
  - the limit clamping and prefix truncation of the top-providers and calls listings;
  - the three threshold alerts;
  - the merge, sort and cut of the recent-activity timeline;
  - the display helpers (`formatDuration`, `mapStatus`, `mapResult`, `capitalize`).
- **The input validators**: `sanitizeInput`, `isValidRole`, `isValidEmail` and `isValidDateRange`.

One Dafny module per component:

| module | models |
|---|---|
| `Wrappers` | `Option` (SQL NULL, NaN) and `Result` (a rejected query) |
| `Text` | decimal numerals as template literals print them, two-digit padding |
| `Ratios` | percentages in hundredths: rounding, display text, the `parseFloat` re-read, `Math.round` |
| `Kpis` | `getMainKPIs` |
| `Tallies` | `getPerformanceMetrics` and `getSentimentAnalysis` (loops as methods) |
| `Historical` | `getHistoricalPerformance` |
| `Limits` | the `parseInt(limit) \|\| d` defaults and clamps |
| `Listings` | `getTopProviders` and `getCalls` |
| `Alerts` | `getSystemAlerts` (conditional pushes as a method) |
| `Activity` | `getRecentActivity` |
| `Formatters` | `formatDuration`, `mapStatus`, `mapResult`, `capitalize` |
| `Validators` | `validators.js` |

**Percentages.** The service computes `((num / den) * 100).toFixed(2)` when the denominator is
positive, and the number `0` otherwise. The model keeps a percentage as whole hundredths.
`toFixed(2)` becomes rounding half up of the exact rational `10000 * num / den`; the
floating-point error of the division is assumed away. The model keeps both forms:
`NumericZero` for the number 0 (shown as "0") and `Fixed(h)` for the string "m.dd".
The alert rules compare `parseFloat` of that displayed text, so the model re-reads the text too.
As a result, a true contact rate of 49.996% displays as "50.00" and raises no alert. The exact
boundary is proved: the contact alert fires iff there are no calls or the exact rate is below
49.995% (`Alerts.ContactAlertThreshold`).

**What the store does** is taken as given, as properties of the input rows:
- grouping, `DATE_FORMAT` bucketing and `ORDER BY`;
- `LIMIT n`, modelled as keeping the first n rows of the full store-ordered stream.

Where the code relies on store guarantees, the lemma states them as a hypothesis. One example
is `GROUP BY estado` giving distinct statuses (`Tallies.DistinctStatuses`).

**Where the documented design and the code differ, the model follows the code:**
- The guarded percentages are the number 0, not a string.
- The call result labels are the Spanish `Oferta` / `Interesado` / `No Interesado` / `Reintentar`.
- An unrecognised `groupBy` falls back to the day format; it is not rejected.
- The recent-activity limit is `parseInt(limit) || 10` with no clamp. A negative limit reaches
  the store's `LIMIT`, which rejects it (`Activity.RecentActivity` returns `Failure`).
- The performance buckets are assigned (`=`), not added to. So with repeated statuses the last
  row wins, while the total still adds every row.

## Model

| member | source | states |
|---|---|---|
| `Kpis.ShapeKpis` | dashboard-web/backend/src/services/analytics_service.js:30-49 | NULL aggregates read as 0; the contact percentage is the number 0 iff there are no calls, the conversion percentage iff there are no successful contacts; otherwise each is within half a hundredth of the exact rate and at most 100.00 when the count does not exceed its base; a present average duration is rounded to the nearest second, halves up |
| `Ratios.RoundedHundredths` | dashboard-web/backend/src/services/analytics_service.js:36 | the rounded value h satisfies -den < 2·den·h − 20000·num <= den (round half up of 100·num/den to two decimals) |
| `Ratios.GuardedPercentage` | dashboard-web/backend/src/services/analytics_service.js:35-37 | the number 0 exactly when the denominator is 0; otherwise the two-decimal rounding of the rate, at most 100.00 when num <= den |
| `Ratios.Display` | dashboard-web/backend/src/services/analytics_service.js:36 | the guarded 0 shows as "0"; a `toFixed(2)` percentage shows as its whole percent without leading zeros, a point and exactly two decimals, whose values are the hundredths divided by 100 and the remainder |
| `Ratios.RoundedAtMostWhole` | dashboard-web/backend/src/services/analytics_service.js:35-37 | a rate of at most the whole never displays above 100.00 |
| `Ratios.RoundedBelow` | dashboard-web/backend/src/services/analytics_service.js:267 | the rounded rate is below a whole threshold T iff the exact rate is below T minus half a hundredth |
| `Ratios.ReadDisplay` | dashboard-web/backend/src/services/analytics_service.js:267 | `parseFloat` of the displayed percentage ("0" or "m.dd") gives back its rounded value |
| `Ratios.ReadsBelowRounded` | dashboard-web/backend/src/services/analytics_service.js:278 | comparing the re-read text with a threshold is comparing the rounded value |
| `Ratios.MathRound` | dashboard-web/backend/src/services/analytics_service.js:40 | `Math.round` gives the integer r with r <= x + 0.5 < r + 1 |
| `Ratios.AverageDuration` | dashboard-web/backend/src/services/analytics_service.js:39-41 | a NULL average gives 0; otherwise the average rounded half up |
| `Tallies.TallyPerformance` | dashboard-web/backend/src/services/analytics_service.js:77-101 | the loop leaves the total equal to the sum of every row's count (unknown statuses included) and each of the four buckets equal to its status's last row count, or 0 |
| `Tallies.BucketsAreKnownTotal` | dashboard-web/backend/src/services/analytics_service.js:85-101 | with distinct statuses the four buckets sum to the counts of the known-status rows |
| `Tallies.KnownTotalWithinTotal` | dashboard-web/backend/src/services/analytics_service.js:85-101 | known-status counts never exceed the total, and equal it iff every unknown-status row counts 0 |
| `Tallies.PerformanceBucketsWithinTotal` | dashboard-web/backend/src/services/analytics_service.js:77-101 | the buckets sum to at most the total, to exactly the total when every status is known, and (rows counting at least 1) only then |
| `Tallies.TallySentiment` | dashboard-web/backend/src/services/analytics_service.js:129-152 | the loop leaves each sentiment bucket equal to the counts of the rows with that sentiment and each interest bucket equal to the counts of the rows with flag 1, 0, or anything else |
| `Tallies.InterestBucketsPartition` | dashboard-web/backend/src/services/analytics_service.js:148-151 | every row lands in exactly one interest bucket: the three sum to the total row count |
| `Tallies.ToneBucketsWithinTotal` | dashboard-web/backend/src/services/analytics_service.js:143-146 | the sentiment buckets sum to at most the total row count, and to all of it iff every counted row has a recognised sentiment |
| `Historical.DateFormat` | dashboard-web/backend/src/services/analytics_service.js:167-180 | hour, week and month select their formats; any other grouping selects the day format |
| `Historical.ShapePeriod` | dashboard-web/backend/src/services/analytics_service.js:197-209 | counts pass through; the contact rate is 0 iff the bucket has no calls, the conversion rate iff it has no contacts, otherwise rounded rates; the average duration is 0 when NULL, otherwise rounded to the nearest second, halves up |
| `Historical.HistoricalPerformance` | dashboard-web/backend/src/services/analytics_service.js:197-209 | one record per bucket row, in the same order |
| `Historical.HistoricalKeepsOrder` | dashboard-web/backend/src/services/analytics_service.js:191-209 | the series carries the bucket labels in the store's order |
| `Limits.ParsedOr` | dashboard-web/backend/src/services/analytics_service.js:247 | NaN and 0 give the fallback, any other parsed value is kept |
| `Limits.TopProvidersLimit` | dashboard-web/backend/src/services/analytics_service.js:247 | the limit lies in [1, 100]; 10 for NaN or 0; kept inside the range, 1 below it, 100 above |
| `Limits.CallsLimit` | dashboard-web/backend/src/services/analytics_service.js:333 | the limit lies in [1, 500]; 100 for NaN or 0; kept inside the range, 1 below it, 500 above |
| `Limits.ActivityLimit` | dashboard-web/backend/src/services/analytics_service.js:393 | never 0; 10 for NaN or 0; otherwise the parsed value, unclamped |
| `Listings.TopProviders` | dashboard-web/backend/src/services/analytics_service.js:247-248 | the first min(limit, rows) providers (at most 100, at least 1 when any exist), keeping the offers-then-contacts ranking |
| `Listings.SummarizeCall` | dashboard-web/backend/src/services/analytics_service.js:338-346 | id, date and provider pass through; the duration is the `formatDuration` text "m:ss" (whole minutes, two-digit remaining seconds), which reads back as the seconds; status, sentiment and result are the helpers' labels |
| `Listings.ListCalls` | dashboard-web/backend/src/services/analytics_service.js:326-346 | min(limit, matching) summaries, at most 500, the i-th formatting the i-th newest call |
| `Listings.ListCallsNewestFirst` | dashboard-web/backend/src/services/analytics_service.js:326 | the listing keeps the store's newest-first order |
| `Alerts.AlertFor` | dashboard-web/backend/src/services/analytics_service.js:268-296 | the contact alert is warning/high, the conversion alert critical/critical, the volume alert info/medium, each with its title; each message quotes its metric as displayed (the percentage text followed by `%`, or the call count) |
| `Alerts.SystemAlerts` | dashboard-web/backend/src/services/analytics_service.js:261-300 | the conditional pushes yield exactly the alerts of the rules that hold, in rule order |
| `Alerts.FiringRules` | dashboard-web/backend/src/services/analytics_service.js:266-297 | filtering the rule list gives the contact, conversion and volume rules, each present iff it holds, in that order |
| `Alerts.AlertsForThree` | dashboard-web/backend/src/services/analytics_service.js:264-297 | the alerts of the conditionally kept rules are the conditionally pushed alerts, in the same order |
| `Alerts.TriggeredAlertsInRuleOrder` | dashboard-web/backend/src/services/analytics_service.js:266-297 | the filtered rule list equals the contact, conversion and volume alerts, each present iff its rule holds |
| `Alerts.KeepMembers` | dashboard-web/backend/src/services/analytics_service.js:266-297 | keeping by a condition gives exactly the kinds that meet it, never more than given |
| `Alerts.KeepOrder` | dashboard-web/backend/src/services/analytics_service.js:266-297 | keeping by a condition preserves a strictly increasing rule order |
| `Alerts.FiringKindsFilter` | dashboard-web/backend/src/services/analytics_service.js:266-297 | filtering rules keeps exactly those that hold, never more than given, in the given order |
| `Alerts.AlertsCharacterised` | dashboard-web/backend/src/services/analytics_service.js:264-300 | between 0 and 3 alerts; a rule's alert is present iff it holds; alerts come in the fixed order contact, conversion, volume |
| `Alerts.ContactAlertThreshold` | dashboard-web/backend/src/services/analytics_service.js:267 | the contact alert fires iff there are no calls or 20000·contacts < 9999·calls (exact rate below 49.995%) |
| `Alerts.ConversionAlertThreshold` | dashboard-web/backend/src/services/analytics_service.js:278 | the conversion alert fires iff there are no contacts or the exact rate is below 19.995% |
| `Alerts.ScenarioDisplays` | dashboard-web/backend/src/services/analytics_service.js:35-46 | 40 calls, 15 contacts, 2 conversions display as "37.50" and "13.33" |
| `Alerts.ThreeAlertScenario` | dashboard-web/backend/src/services/analytics_service.js:264-297 | that snapshot raises all three alerts |
| `Alerts.RoundedUpRateRaisesNoAlert` | dashboard-web/backend/src/services/analytics_service.js:267 | a true rate of 49.996% displays "50.00" and raises no contact alert |
| `Alerts.ContactAlertIsStrict` | dashboard-web/backend/src/services/analytics_service.js:267 | exactly 50.00% raises no contact alert; 49.99% does |
| `Activity.InsertKeepsOrder` | dashboard-web/backend/src/services/analytics_service.js:401 | inserting into a newest-first sequence keeps it newest first |
| `Activity.InsertPermutes` | dashboard-web/backend/src/services/analytics_service.js:401 | inserting adds exactly the inserted event |
| `Activity.SortByTime` | dashboard-web/backend/src/services/analytics_service.js:400-401 | the sort's result is newest first and as long as its input |
| `Activity.InsertAtTime` | dashboard-web/backend/src/services/analytics_service.js:401 | an inserted event goes ahead of the events of its own time already placed |
| `Activity.SortStable` | dashboard-web/backend/src/services/analytics_service.js:400-401 | the sort is stable: for every time, the events of that time keep their input order |
| `Activity.SortPermutes` | dashboard-web/backend/src/services/analytics_service.js:400-401 | the sort is a permutation of its input |
| `Activity.Take` | dashboard-web/backend/src/services/analytics_service.js:388-390 | `LIMIT n` on a store-ordered stream keeps its first min(n, rows) rows |
| `Activity.Merged` | dashboard-web/backend/src/services/analytics_service.js:393-402 | for a limit n >= 1: min(n, calls + offers) events, newest first, drawn from the fetched calls and offers; every fetched event left out is no newer than the last one kept; events of equal time appear in fetched order, calls before offers |
| `Activity.TakeLeavesNoNewer` | dashboard-web/backend/src/services/analytics_service.js:402 | cutting a newest-first sequence to n >= 1 leaves out only events no newer than the last one kept |
| `Activity.TakePrefixAtTime` | dashboard-web/backend/src/services/analytics_service.js:402 | cutting keeps, for every time, a prefix of that time's events |
| `Activity.SortedPrefixShape` | dashboard-web/backend/src/services/analytics_service.js:400-402 | sorting then cutting to n gives min(n, fetched) events, newest first, drawn from the fetched ones |
| `Activity.SortedPrefixKeepsNewest` | dashboard-web/backend/src/services/analytics_service.js:400-402 | sorting then cutting to n >= 1 leaves out only fetched events no newer than the last one kept |
| `Activity.SortedPrefixTieOrder` | dashboard-web/backend/src/services/analytics_service.js:400-402 | sorting then cutting keeps, for every time, the first fetched events of that time, in fetched order |
| `Activity.MergedFromInputs` | dashboard-web/backend/src/services/analytics_service.js:400-402 | every merged event is one of the input calls or offers |
| `Activity.FormatEvent` | dashboard-web/backend/src/services/analytics_service.js:405-425 | ids "call-<id>" and "offer-<id>"; the call title depends on completion; the call description follows conversion > interest > neither; the time is kept |
| `Activity.RecentActivity` | dashboard-web/backend/src/services/analytics_service.js:393-425 | fails iff the parsed limit is negative; otherwise min(limit, calls + offers) items, non-increasing in time, each the formatting of the merged event at its position (the newest fetched events, ties in fetched order) |
| `Activity.MergeScenario` | dashboard-web/backend/src/services/analytics_service.js:399-402 | calls at 20 and 10 and offers at 25 and 15 with limit 3 give the offer at 25, the call at 20, the offer at 15 |
| `Activity.TieKeepsCallFirst` | dashboard-web/backend/src/services/analytics_service.js:400-402 | a call and an offer at the same time with limit 1: the call is kept |
| `Formatters.FormatDuration` | dashboard-web/backend/src/services/analytics_service.js:436-441 | "m:ss" with m = s div 60 and two-digit s mod 60, the zero case included ("0:00"), and reading it back gives s |
| `Formatters.MapStatus` | dashboard-web/backend/src/services/analytics_service.js:443-451 | the four statuses map to their labels; any other status is returned as it is |
| `Formatters.MapStatusIdempotent` | dashboard-web/backend/src/services/analytics_service.js:443-451 | relabelling a label leaves it unchanged |
| `Formatters.MapResult` | dashboard-web/backend/src/services/analytics_service.js:453-458 | Oferta iff converted; Interesado iff not converted but interested; No Interesado iff neither and completed; Reintentar otherwise |
| `Formatters.Capitalize` | dashboard-web/backend/src/services/analytics_service.js:460-463 | same length, first character upper-cased, tail unchanged, "" for "" |
| `Formatters.CapitalizeIdempotent` | dashboard-web/backend/src/services/analytics_service.js:460-463 | capitalising twice is capitalising once |
| `Formatters.SentimentLabel` | dashboard-web/backend/src/services/analytics_service.js:344 | a missing or empty sentiment shows as "-", any other is capitalised |
| `Validators.Strip` | dashboard-web/backend/src/utils/validators.js:43 | the result never lengthens the input and contains none of `<`, `>`, `'`, `"` |
| `Validators.SanitizeInput` | dashboard-web/backend/src/utils/validators.js:41-44 | non-strings come back unchanged; strings come back stripped, no longer and free of the four characters |
| `Validators.StripConcat` | dashboard-web/backend/src/utils/validators.js:43 | stripping distributes over concatenation (it acts character by character, keeping order) |
| `Validators.StripCounts` | dashboard-web/backend/src/utils/validators.js:43 | every other character occurs as often as in the input; the four stripped characters vanish |
| `Validators.StripKeepsClean` | dashboard-web/backend/src/utils/validators.js:43 | a string free of the four characters is unchanged |
| `Validators.StripIdempotent` | dashboard-web/backend/src/utils/validators.js:43 | sanitizing twice is sanitizing once |
| `Validators.StripLength` | dashboard-web/backend/src/utils/validators.js:43 | the length drops by exactly the number of stripped characters |
| `Validators.IsValidRole` | dashboard-web/backend/src/utils/validators.js:33-36 | true exactly for "Admin", "Manager" and "Analyst" |
| `Validators.IsValidEmail` | dashboard-web/backend/src/utils/validators.js:25-28 | no white space, exactly one `@`, a non-empty local part and a `.` in the domain that is neither its first nor last character, iff the regular expression matches |
| `Validators.ShapeMatchesPattern` | dashboard-web/backend/src/utils/validators.js:26 | every string of that shape matches the regular expression |
| `Validators.PatternHasShape` | dashboard-web/backend/src/utils/validators.js:26 | every string the regular expression matches has that shape |
| `Validators.IsValidDateRange` | dashboard-web/backend/src/utils/validators.js:16-20 | true iff both dates are valid and start <= end |
| `Validators.DateRangeOrder` | dashboard-web/backend/src/utils/validators.js:16-20 | reflexive on valid dates, false when start > end or a date is invalid |

## Left out

- SQL text and its execution through `query` (dashboard-web/backend/src/config/database.js:39-47). Aggregation, `DATE_FORMAT` bucketing, `ORDER BY` and `LIMIT` are the store's work; their results are the input rows.
- Query failures other than a negative `LIMIT`. A failed query rethrows the store's error; the model has no store to fail.
- Floating point. `toFixed(2)` is taken as rounding half up of the exact rational; the error of the float division and float ties are not modelled. `Math.round` is modelled on exact reals.
- `parseInt` on strings. Its result is the input `Option<int>`, with `None` for NaN.
- The driver's column types. mysql2 returns `SUM` and `AVG` as decimal strings; the model treats them as numbers.
- JavaScript `Date` handling: the ISO-to-DATETIME reformatting (analytics_service.js:241-242, 331-332), `isValidISODate`, and parsing inside `isValidDateRange`. Dates are integer timestamps, with `None` for an Invalid Date.
- The `Promise.all` fan-out of `getRecentActivity` (only the merge after it is modelled), every `logger` call, and the `new Date()` timestamp of each alert.
- Formatters.Capitalize: upper-cases ASCII `a`–`z` only. JavaScript's `toUpperCase` maps every Unicode letter and can lengthen a string (`ß` becomes `SS`). The sentiment values it receives are ASCII.
- Formatters.MapStatus: a status naming an inherited object property (such as `toString`) looks up a function in JavaScript. This is not modelled.
- Formatters.FormatDuration: durations are natural numbers; NULL, negative and fractional seconds are not modelled.
- Validators.IsValidEmail: string inputs only. `RegExp.test` converts any other value to a string first.
- Validators.IsValidRole: string inputs only; `includes` is false for any non-string.
- The unused columns: the average duration of the performance query and the call transcript of the listing query.
- Everything outside the analytics service and the validators: Express routes and the response cache, authentication and rate limiting, seeding scripts, and the React frontend.
