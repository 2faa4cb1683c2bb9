# AgencyPulse in Dafny

A model of the state-bearing and arithmetic cores of AgencyPulse, a reporting platform for marketing
agencies, with proofs about whole runs and all inputs. Code that changes rows step by step is modelled by
classes and methods, each proved equal to a step of a state machine; the theorems are about those steps.
Code made of expressions is modelled by functions.

| file | what it models |
|---|---|
| Calendar, Periods, PriorPeriod | UTC days and dates (section 21.4.1 of ECMA-262), the period labels of charts, the three prior-period functions |
| Metrics, StoredRows, CardsAndCharts, CacheKeys, VersionedCache, CacheGuards, MetricsService | the bulk upsert, the two SQL queries, zero filling, what their figures count, the cache keys, the versioned cache under interleaved readers and writers, and exactly when it can go wrong |
| Regression | least squares, R², the trend and the forecast with its band |
| Accounts, AccountRuns, AccountAnswers, AccountService | registration, login, refresh-token rotation with reuse detection (section 5.2.2.3 of RFC 6819), invitations, removal and password reset as one state machine |
| Slugs | the base of an agency's slug and the search for a free one |
| SyncScheduler | which connections a cycle takes, the batch loop, and the days each sync fetches |
| Alerts | the grouped alert check, failing at any statement, and the cooldown |
| Encryption, IntegrationTokens | the framing of stored secrets and the partially updated connection rows that hold them |
| AiReport | a summary tagged with the version it was generated from, and the rendered PDF |
| BillingWebhook | deduplicated webhook deliveries and the five billing handlers |
| Options, Text | shared datatypes and the size of a subset; decimal numbers, joining, splitting and sorting of strings |

`dafny verify dfyconfig.toml` checks everything.

## Where the code differs from what it promises

The model follows the code; each of these is stated by the lemma named.

- Date.UTC reads the years 0 to 99 as 1900 to 1999: month labels, computePriorPeriod and forecast dates are wrong exactly there (`LabelsExact`, `ChartAddsUpExactly`, `PriorPeriodsAgree`, `ForecastDates`).
- A range reversed within one week or month still yields the period its ends share (`LabelsExact`).
- Metric keys are joined by commas in the cache key, and any string is a metric key to goals, alerts and widgets: the metric "clicks,impressions" shares its key with the two metrics, and the metric "all" with the unfiltered request. Each can get the other's answer (`RivalExactly`, `OwnAnswerExactly`, `CommaGoalEmptiesCard`).
- The endpoints accept dates with a time of day; generatePeriods appends another one and then finds no period, so such a chart has no labels (`GeneratePeriods`, `FillMissingPeriods`).
- An upsert whose later batch is rejected has committed the earlier ones without a version increment (`TearsExactly`, `TornUpsertServesStale`).
- A check that fails between an alert's event and its mark is repeated by the queue and fires that alert again within its cooldown (`CooldownHolds`, `RetryRepeatsExactly`).
- The query of the scheduler is commented "null first", but PostgreSQL sorts nulls last in ascending order and the query does not ask otherwise (`FairExactly`, `NullsLastStarves`). The comment about walking back to 90 days over later runs describes nothing the code does: no window starts more than thirty days back (`WindowDays`).
- markSynced after a disconnect shows a connection as connected without a token (`StatusKept`, `StatusOverRuns`, `TokenlessHappens`).
- A removed pending client user keeps the client, which a later staff invitation to the same e-mail inherits (`StaleClientRides`, `StaleClientHappens`).
- Removal and a new invitation leave an earlier password reset link in force (`OldLinkExactly`, `OldLinkHappens`).
- A PDF whose rendering began before a change of the sections is stored after it and stays (`PdfOverRuns`, `OvertakenHappens`).
- Two overlapping changes of a report's sections write the same version (`OverlapExactly`, `OverlapServesStale`).
- The webhook class says Stripe will retry on failure. The retry is acknowledged without processing, because the event was recorded before its handler ran (`ProcessedExactly`, `FailureIsFinal`). The link from a billing event to its tenant is written under the session's id, not the event's (`LinkedExactly`, `CheckoutStaysUnlinked`).

## Assumptions

- Every awaited statement is one atomic step. PostgreSQL runs in UTC and enforces its unique indexes; Redis is available; cache entries may expire at any time, version counters do not.
- Numbers are exact: integers are unbounded, floating point is modelled by reals, Math.round is the floor of x + 0.5 and the square root is any function that is not negative.
- SHA-256 is injective, so a row is keyed by the raw token; a bcrypt digest stands for its password; random tokens and row ids are new; the cipher is a parameter that opens what it sealed. An invitation's or reset link's hash and expiry are written together, so they are one optional value.
- Operations on accounts run one after another, with a clock that does not go back. Plan limits, whether a client is active and access to a campaign are arbitrary inputs of each call.
- E-mail addresses are already in lower case; letters of agency names are lower-cased as in ASCII; trimming removes blanks, tabs and line ends.
- normalizeMetricValue is an arbitrary function, and the columns accept or refuse a row by an arbitrary test of their own: widths, the range of decimal(20,6), values that are no numbers. Results that say "some run" choose both. Metric values are kept per tenant, campaign and platform instead of in one table with those columns.
- Identifiers of tenants, campaigns and platforms hold no colon; cached requests carry dates YYYY-MM-DD from the year 1 on.
- A call for a connection row of another tenant is refused, by the access check or by row-level security.

## Model

| member | source | states |
|---|---|---|
| Calendar.DayFromYearClosedForm | src/common/metrics-utils.ts:17-26 | the first day of a year, counted year by year with leap years, is the closed form that section 21.4.1 of ECMA-262 gives, before and after 1970 |
| Calendar.CivilRoundTrip | src/common/metrics-utils.ts:40-42 | every UTC day number has a valid year, month and day that count back to it |
| Calendar.DayNumberRoundTrip | src/common/metrics-utils.ts:17-26 | every valid calendar date is the date of its own day number, so days and dates are in bijection |
| Calendar.ParseIsoDate | src/common/metrics-utils.ts:40-42 | printing a day as YYYY-MM-DD and parsing it gives the day back, for every day of the years 0 to 9999 |
| Calendar.IsoParseDate | src/common/metrics-utils.ts:40-42 | parsing a date string and printing the day gives the string back |
| Calendar.IsoDateOutOfRange | src/common/metrics-utils.ts:40-42 | outside those years slice(0, 10) leaves a string that is no date |
| Calendar.DateReads | src/common/metrics-utils.ts:17-26 | the year, month and day of a date string are its first four, middle two and last two digits |
| Calendar.MonthIndexUnique | src/modules/metrics/metrics.service.ts:291-293 | the month of a day is the only one whose first day is not after it while the next month starts later |
| Periods.GeneratePeriods | src/modules/metrics/metrics.service.ts:286-315 | the loop stops and its labels are those of the specified period days; a range one of whose ends carries a time of day has none |
| Periods.PeriodDaysExact | src/modules/metrics/metrics.service.ts:305-312 | from an aligned start the loop visits exactly the aligned days up to the end, in strictly increasing order |
| Periods.LabelsExact | src/modules/metrics/metrics.service.ts:282-315 | the labels are increasing, and are exactly the DATE_TRUNC values of the days of the range if and only if the month branch does not start in the years 0 to 99 (Date.UTC moves those by 1900) and a reversed range does not lie within one week or month |
| Periods.TruncMonotone | src/modules/metrics/metrics.service.ts:144-145 | DATE_TRUNC keeps the order of days |
| Periods.NextAligned | src/modules/metrics/metrics.service.ts:305-312 | one step of the loop goes to the next aligned day and skips none |
| PriorPeriod.PriorPeriodsAgree | src/common/metrics-utils.ts:16-42 | computePriorPeriod, calcPriorPeriod and shiftPeriod give the same strings if and only if `from` lies in the year 100 or later |
| PriorPeriod.CalcAndShiftAreExact | src/modules/agency-overview/agency-overview.service.ts:245-256 | the ceiling of the quotient in calcPriorPeriod and the difference in shiftPeriod both give the range of equal length ending the day before |
| PriorPeriod.PriorPeriodFits | src/modules/dashboards/dashboards.service.ts:488-493 | the result has as many days as the period and ends the day before it, if and only if it starts in year 0 or later |
| PriorPeriod.PriorPeriodsTile | src/modules/agency-overview/agency-overview.service.ts:245-256 | stepping back again and again with calcPriorPeriod covers every earlier day by exactly one of the periods |
| PriorPeriod.ComputePriorPeriodsTile | src/common/metrics-utils.ts:16-38 | computePriorPeriod tiles the past in the same way while every step stays in the year 100 or later |
| Metrics.UpsertAllOverrides | src/modules/metrics/metrics.service.ts:396-405 | ON CONFLICT DO UPDATE over a batch leaves the old table overridden row by row in input order, and no key twice |
| Metrics.UpsertAllIdempotent | src/modules/metrics/metrics.service.ts:396-405 | repeating a statement changes no value |
| Metrics.CallIdempotent | src/modules/metrics/metrics.service.ts:40-49 | repeating a whole call changes no value, also when its batches override each other or one is rejected |
| Metrics.OverrideAt | src/modules/metrics/metrics.service.ts:396-405 | the value under a key is that of the last row carrying the key, or the old one |
| Metrics.BuildUpsert | src/modules/metrics/metrics.service.ts:380-394 | every numbered placeholder of every row resolves, in the flat parameter list, to the field of that row it stands for |
| Metrics.BatchesAreFold | src/modules/metrics/metrics.service.ts:40-49 | batching equals the one fold over all rows and counts them all; a rejected batch leaves exactly the rows of the batches before it, whatever the table |
| Metrics.QueryIsTimeSeries | src/modules/metrics/metrics.service.ts:143-173 | the grouped query has a row for every period and metric with a stored value, holding the aggregate of its group, and no other rows |
| Metrics.QueryHasOneRowEach | src/modules/metrics/metrics.service.ts:156 | no period and metric come twice in it |
| Metrics.FillMissingPeriods | src/modules/metrics/metrics.service.ts:254-280 | every period gets every key, with the value looked up in the query rows and 0 where there is none; a range with a time of day gives no period at all |
| Metrics.FilledIsChart | src/modules/metrics/metrics.service.ts:71-75 | filling the rows of the query gives the chart: for each label the aggregate of that period, for each key seen anywhere |
| Metrics.ChartAddsUp | src/modules/metrics/metrics.service.ts:124-174 | for every table, range, filter and granularity the column sums of the SUM chart equal the SUM card, when the labels start in place |
| Metrics.ChartAddsUpExactly | src/modules/metrics/metrics.service.ts:218-245 | they add up for all tables and keys if and only if the labels start in place; otherwise one row is enough to break it |
| Metrics.TruncKeepsSqlYears | src/modules/metrics/metrics.service.ts:144-145 | truncation does not leave the years 1 to 9999 |
| CardsAndCharts.CardMeaning | src/modules/metrics/metrics.service.ts:178-245 | a card has an entry for every asked metric with rows in the range: under SUM their sum, under AVG a value that times their number is the sum, under LAST the value of the newest of those without dimensions |
| CardsAndCharts.ChartMeaning | src/modules/metrics/metrics.service.ts:143-160 | each label of a chart has, for each metric shown, the sum or average of the rows of the days from it to the day before the next label, 0 where there are none |
| StoredRows.RowMeaning | src/modules/metrics/metrics.service.ts:385-393 | an input is stored exactly when its date is one of PostgreSQL and the columns take it; the eight parameters hold that row, metric, day, value and each dimension in its own column |
| StoredRows.DimensionStored | src/modules/metrics/metrics.service.ts:386-387 | a dimension is stored without the blanks around it, and as null when nothing else is left |
| StoredRows.AcceptedExactly | src/modules/metrics/metrics.service.ts:396-405 | a statement is accepted exactly when every row can be stored, none is negative, and no two share a key |
| StoredRows.SameKeyExactly | src/modules/metrics/metrics.service.ts:401 | two inputs hit one stored row exactly when what is stored for them differs at most in the value |
| CacheKeys.CacheKeyExact | src/modules/metrics/metrics.service.ts:337-353 | for any metric keys, two cache keys are equal if and only if the versions are equal and the requests differ at most in their lists of metric keys, which print alike |
| CacheKeys.KeysStrExact | src/modules/metrics/metrics.service.ts:349-351 | two lists of any metric keys print alike if and only if they are the same once sorted and cut at every comma, the absent list standing for ["all"] |
| CacheKeys.VersionKeyInjective | src/modules/metrics/metrics.service.ts:333-335 | two scopes never share a version counter |
| CacheKeys.RivalExactly | src/modules/metrics/metrics.service.ts:349-352 | a different question has the same cache key if and only if the list of metric keys is empty, is ["all"], has two keys or more, or is one key that some comma cuts into two strings in sorted order |
| CacheKeys.KnownRivals | src/modules/metrics/metrics.service.ts:349-351 | the metric "clicks,impressions" shares its key with the two metrics clicks and impressions, and the metric "all" with the unfiltered request |
| CacheKeys.RivalsDiffer | src/modules/metrics/metrics.service.ts:337-353 | different questions with one key share it at every version, and some table gives them different answers if and only if the range of the card is not reversed or the chart has a label |
| CacheKeys.CardsAgreeExactly | src/modules/metrics/metrics.service.ts:178-245 | two cards that differ in their filters only agree exactly on the tables of whose counted rows both filters select the same, for every aggregate |
| CacheKeys.ChartsAgreeExactly | src/modules/metrics/metrics.service.ts:254-280 | two charts that differ in their filters only agree exactly when there is no label or both show the same metrics |
| CacheKeys.PlainHaveNoRivals | src/modules/metrics/metrics.service.ts:349-351 | callers whose metric keys hold no comma, and whose list is not ["all"], never share a key with a different question of each other |
| CacheKeys.SameQuestionSameAnswer | src/modules/metrics/metrics.service.ts:361-369 | requests whose lists hold the same metric keys, in any order and number, have the same answer on every table |
| Text.SortCanonical | src/modules/metrics/metrics.service.ts:350 | sorting gives the same list exactly for permutations |
| Text.SplitJoin | src/common/encryption/encryption.service.ts:45 | splitting undoes joining when no part holds the separator |
| VersionedCache.StepOk | src/modules/metrics/metrics.service.ts:32-50 | every awaited step of any reader or writer keeps the invariant of tables, counters, entries and calls in flight |
| VersionedCache.RunOk | src/modules/metrics/metrics.service.ts:54-98 | so does every interleaving of any number of calls, with entries expiring at any time |
| VersionedCache.NothingEmptyKept | src/common/cache/cache.service.ts:43-55 | over every run no entry holds an empty array |
| VersionedCache.HitIsFresh | src/common/cache/cache.service.ts:33-57 | an entry found under the current or any past version was computed on a table state no older than that version, for a question asked in the run under the same key |
| VersionedCache.ReadAfterUpsert | src/modules/metrics/metrics.service.ts:45-49 | a read that starts after an upsert returned answers from the state the upsert left or a later one, under any interleaving; the answer is its own unless a different question is asked under its key in the run |
| VersionedCache.QuietEntriesAreFresh | src/modules/metrics/metrics.service.ts:337-353 | with no upsert in flight and none torn since the last increment, every entry at the current version equals a fresh query, its own unless a different question was asked under the key |
| VersionedCache.TornUpsertServesStale | src/modules/metrics/metrics.service.ts:41-47 | a concrete run: the second batch is rejected after the first was committed, the counter stays, and the cache goes on serving the old card |
| CacheGuards.WholeIsAllOrNothing | src/modules/metrics/metrics.service.ts:38-49 | a call succeeds exactly when every batch is accepted, for any test the columns apply; if it is empty, accepted, or rejected at its first batch, it writes everything or nothing |
| CacheGuards.GuardedRunsAreFresh | src/modules/metrics/metrics.service.ts:32-50 | if every call of a run is of that kind and no process stops, every entry that can be hit with no upsert in flight is fresh |
| CacheGuards.UntornRun | src/modules/metrics/metrics.service.ts:38-49 | and no upsert of such a run ever stops between a commit and its increment |
| CacheGuards.TearsExactly | src/modules/metrics/metrics.service.ts:38-49 | a call can leave a stale answer to be served if and only if it is not of that kind: for every other one there is a run, on its first row's day, that does |
| CacheGuards.DrivenToRejection | src/modules/metrics/metrics.service.ts:41-47 | a rejected call leaves the rows of its earlier batches and neither moves the counter nor touches an entry |
| CacheGuards.OwnAnswerExactly | src/modules/metrics/metrics.service.ts:54-98 | every read after a returned upsert, in every interleaving, on every platform and beside any other calls, answers its own question from the state left or a later one if and only if its range spans nothing or no other list of metric keys prints like its own; otherwise a run on one row gets it another answer, whatever the aggregate, cards and charts alike |
| CacheGuards.RivalAnswered | src/modules/metrics/metrics.service.ts:349-352 | for any two different questions with one key: when one row was written and one of them asked, the other gets its answer |
| CacheGuards.CommaGoalEmptiesCard | src/modules/metrics/metrics.service.ts:349-352 | a concrete run: after a goal on the metric "clicks,impressions" the card of clicks and impressions comes back empty although there are clicks |
| CacheGuards.PlainRunsAreOwn | src/modules/metrics/metrics.service.ts:54-98 | if no call of a run has a comma in a metric key or asks for ["all"], every finished read has its own answer on a state no older than it may be |
| MetricsService.CacheService.GetOrSet | src/common/cache/cache.service.ts:33-57 | read-through: an entry is returned as it is, otherwise the computed answer is returned and kept unless it is an empty array |
| MetricsService.CacheService.IncrementVersion | src/common/cache/cache.service.ts:64-70 | the counter grows by one, from 0 when absent, and nothing else changes |
| MetricsService.MetricsService.UpsertMetrics | src/modules/metrics/metrics.service.ts:32-50 | the batch loop leaves the table and outcome of the specified batches, bumps the counter exactly when all were written, and leaves no stale answer that can be served whenever the call writes everything or nothing |
| MetricsService.MetricsService.GetMetrics | src/modules/metrics/metrics.service.ts:54-76 | the chart returned, cached or not, is the chart of the current table, unless a different question was asked before under its key; then it is the answer to one of those |
| MetricsService.MetricsService.GetMetricSummary | src/modules/metrics/metrics.service.ts:80-98 | the card returned, cached or not, is the summary of the current table, whose entries CardMeaning counts row by row, with the same exception |
| Regression.DenominatorClosed | src/modules/forecast/utils/linear-regression.ts:36-37 | the denominator is n²(n²−1)/12, hence zero exactly below two points |
| Regression.ResidualsVanish | src/modules/forecast/utils/linear-regression.ts:36-38 | the residuals of the fitted line sum to zero and are orthogonal to the index |
| Regression.LeastSquares | src/modules/forecast/utils/linear-regression.ts:26-43 | no line has a smaller squared error, and from two points on no other line has the same |
| Regression.SseOfLine | src/modules/forecast/utils/linear-regression.ts:43 | the squared error of any line is that of the fitted one plus the squared distance between the two lines |
| Regression.VarianceSplits | src/modules/forecast/utils/linear-regression.ts:41-43 | the total sum of squares is the residual plus the explained one |
| Regression.R2Range | src/modules/forecast/utils/linear-regression.ts:44 | R² lies in 0..1, the Math.max clamp never acts, and R² is 1 exactly when every value is on the line |
| Regression.TrendMeaning | src/modules/forecast/utils/linear-regression.ts:49-52 | FLAT, UP and DOWN in terms of two per cent of the mean; a zero mean is FLAT however steep the line |
| Regression.RegressionReports | src/modules/forecast/utils/linear-regression.ts:26-62 | what is reported, by any line no other beats in squared error: its slope and intercept to four decimals, the trend by two per cent of the mean, the explained share and whether it is below 0.3, and the residual deviation; for one point slope 0 and the value |
| Regression.ReportedInRange | src/modules/forecast/utils/linear-regression.ts:54-61 | after rounding R² is in 0..1 and the deviation is not negative |
| Regression.UnitFree | src/modules/forecast/utils/linear-regression.ts:26-62 | multiplying the series by a positive factor changes neither R² nor the direction |
| Regression.BuildForecast | src/modules/forecast/utils/linear-regression.ts:64-90 | the loop returns one point per day: the line at its index, not below zero, and 1.96 deviations to either side, each to two decimals, under its date |
| Regression.BandHoldsPoint | src/modules/forecast/utils/linear-regression.ts:82-87 | 0 ≤ lower ≤ projected ≤ upper after rounding |
| Regression.ForecastFollowsSlope | src/modules/forecast/utils/linear-regression.ts:79-85 | rounded projections of a rising line never fall, of a falling one never rise |
| Regression.ForecastDates | src/modules/forecast/utils/linear-regression.ts:70-81 | the dates are the days after fromDate if and only if its year is 100 or later |
| Accounts.StepSound | src/modules/auth/token.service.ts:94-184 | every operation on accounts keeps the joint invariant, forgets nothing of the history, opens sessions only for active users in their own tenant and role, and never reaches the "inactive" branch of refresh |
| AccountRuns.EveryRun | src/modules/team/team.service.ts:204-284 | over every serial run: at most one live token in each login's chain; a live token belongs to an active user of its tenant; an active user has a password and no invitation; an owner is active |
| AccountRuns.RevocationIsPermanent | src/modules/auth/token.service.ts:169-184 | a revoked token keeps its time of revocation while it is stored and is never live again |
| AccountRuns.ReuseRevokesAll | src/modules/auth/token.service.ts:118-124 | presenting a token revoked in the last 30 days is noticed and leaves its user without a live token |
| AccountRuns.RevokedNeverRefreshes | src/modules/auth/token.service.ts:115-124 | a revoked token, cleaned up or not, never opens a session |
| AccountRuns.RefreshRotates | src/modules/auth/token.service.ts:129-153 | after a refresh the new token is live, and the old one opens no session after any further run |
| AccountRuns.LinksWorkOnce | src/modules/team/team.service.ts:220-282 | each invitation is accepted, and each reset link used, at most once in a run |
| AccountRuns.OwnerStaysOwner | src/modules/team/team.service.ts:515-518 | a registered owner is the active owner of the same agency after any run |
| AccountRuns.ReusedRowIsNoOwner | src/modules/team/team.service.ts:131-147 | the row an invitation may take over is never an owner's and has no live token |
| AccountRuns.RemoveEndsSessions | src/modules/team/team.service.ts:520-526 | removal leaves the member inactive, without an invitation and without a live token |
| AccountRuns.RemovedStaysOut | src/modules/team/team.service.ts:503-526 | a removed member gets no session by any sequence of operations until accepting a new invitation |
| AccountRuns.LoginOpens | src/modules/auth/auth.service.ts:167-183 | login succeeds if and only if some active user has that e-mail and password |
| AccountRuns.ResetTakesEffect | src/modules/auth/auth.service.ts:355-392 | a reset ends every session of the user, and afterwards exactly the new password logs in |
| AccountRuns.StaleClientRides | src/modules/team/team.service.ts:131-147 | accepting a staff invitation is refused for a missing client exactly when the row it took over had a client that is gone, and assigns a client exactly when it had one that is not |
| AccountRuns.StaleClientHappens | src/modules/team/team.service.ts:371-411 | a run from the empty database leads there: register, invite a client user, remove, invite as staff, accept |
| AccountRuns.OldLinkExactly | src/modules/auth/auth.service.ts:355-392 | after any run a reset link takes effect if and only if its user got no newer one and did not use it, is active at that moment, and its hour is not over |
| AccountRuns.OldLinkHappens | src/modules/team/team.service.ts:520-526 | removal, a new staff invitation and its acceptance leave a reset link in force |
| AccountService.Services.ValidateAndRotateRefreshToken | src/modules/auth/token.service.ts:94-167 | the statements in the order of the code leave the state and answer of the specified refresh step |
| AccountService.Services.StoreRefreshToken | src/modules/auth/token.service.ts:61-83 | inserts the token with its expiry and changes nothing else |
| AccountService.Services.RevokeToken | src/modules/auth/token.service.ts:169-176 | marks that token if it is not yet revoked, and no other |
| AccountService.Services.RevokeAllUserTokens | src/modules/auth/token.service.ts:178-184 | marks exactly the unrevoked tokens of the user |
| AccountService.Services.DeleteExpiredTokens | src/modules/auth/token.service.ts:200-211 | deletes exactly the expired unrevoked tokens and those revoked more than 30 days ago, and counts them |
| AccountService.Services.RegisterAgency | src/modules/auth/auth.service.ts:41-121 | leaves the state and answer of the register step; an e-mail in use is a conflict |
| AccountService.Services.SignIn | src/modules/auth/auth.service.ts:151-225 | leaves the state and answer of the login step |
| AccountService.Services.RefreshSession | src/modules/auth/auth.service.ts:255-275 | leaves the state and answer of the refresh step, a missing cookie included |
| AccountService.Services.SignOut | src/modules/auth/auth.service.ts:279-283 | revokes the presented token and nothing else |
| AccountService.Services.ForgotPassword | src/modules/auth/auth.service.ts:318-351 | issues a link to an active user with that e-mail and changes nothing otherwise |
| AccountService.Services.ResetPassword | src/modules/auth/auth.service.ts:355-395 | leaves the state and answer of the reset step |
| AccountService.Services.InviteStaffMember | src/modules/team/team.service.ts:75-162 | leaves the state and answer of the invite step, the reuse of a removed member's row included |
| AccountService.Services.AcceptInvite | src/modules/team/team.service.ts:199-329 | leaves the state and answer of the accept step |
| AccountService.Services.Resend | src/modules/team/team.service.ts:333-351 | a new invitation for any inactive user of the tenant |
| AccountService.Services.InviteClientUser | src/modules/team/team.service.ts:371-411 | leaves the state and answer of the client invite step |
| AccountService.Services.ResendToClient | src/modules/team/team.service.ts:443-477 | a new invitation for an inactive client user of the tenant |
| AccountService.Services.RemoveTeamMember | src/modules/team/team.service.ts:503-526 | leaves the state and answer of the remove step |
| AccountAnswers.RegisterAnswers | src/modules/auth/auth.service.ts:41-121 | an agency is registered exactly when nobody has the e-mail: an active owner with that password and one token; otherwise nothing is written |
| AccountAnswers.LoginAnswers | src/modules/auth/auth.service.ts:151-225 | whoever has the e-mail and the password gets a session for their tenant and role while active and hears of being inactive only then; everyone else the same refusal |
| AccountAnswers.RefreshAnswers | src/modules/auth/token.service.ts:94-167 | a refresh opens a session if and only if the token is stored, not revoked and not past its expiry; the four refusals are told apart, and a revoked token costs exactly its user every session |
| AccountAnswers.RefreshWrites | src/modules/auth/token.service.ts:129-153 | the presented token is revoked, one is added for the same user with the configured lifetime, and no other changes |
| AccountAnswers.TokenWorksExactly | src/modules/auth/token.service.ts:94-167 | the token of any session opens another one, after any run that follows, if and only if it has not been revoked and the configured time is not over, whatever was cleaned up |
| AccountAnswers.SignOutWrites | src/modules/auth/token.service.ts:169-176 | signing out revokes the presented token if it is live, and nothing else |
| AccountAnswers.SignOutEnds | src/modules/auth/auth.service.ts:279-283 | after signing out the token is dead and opens no session in any run that follows |
| AccountAnswers.CleanUpWrites | src/modules/auth/token.service.ts:200-211 | deleted are exactly unrevoked tokens past their expiry and tokens revoked more than 30 days ago |
| AccountAnswers.ForgotAnswers | src/modules/auth/auth.service.ts:318-351 | an active user with the e-mail, and nobody else, gets a link for one hour; the answer is always the same |
| AccountAnswers.ResetAnswers | src/modules/auth/auth.service.ts:355-395 | the active user who has the link gets the new password within its time and loses every session; the refusals are told apart and write nothing |
| AccountAnswers.InviteStaffAnswers | src/modules/team/team.service.ts:75-162 | the answer by plan limits and by who has the e-mail, and exactly the row that is written |
| AccountAnswers.InviteClientAnswers | src/modules/team/team.service.ts:371-411 | a client user is invited exactly for a client there is and an e-mail nobody has |
| AccountAnswers.ResendAnswers | src/modules/team/team.service.ts:333-351 | an invitation is renewed exactly for an inactive user of the tenant, by the client form for client users alone |
| AccountAnswers.AcceptAnswers | src/modules/team/team.service.ts:199-329 | who a valid acceptance activates, with which password, client and session, and which refusal else |
| AccountAnswers.RemoveAnswers | src/modules/team/team.service.ts:503-526 | exactly a member of the own agency other than the requester and the owner is deactivated and loses every session |
| AccountAnswers.InvitationLasts | src/modules/team/team.service.ts:199-240 | an invitation or its renewal makes its user an active member of that tenant in that role exactly within 48 hours and unless the client it is for is gone |
| Slugs.GenerateUniqueSlug | src/modules/auth/auth.service.ts:495-513 | the search stops after at most one more probe than there are slugs, with the first of base, base-1, base-2, ... that is free |
| Slugs.TooManyTried | src/modules/auth/auth.service.ts:505-512 | more candidates than slugs cannot all be taken |
| Slugs.CandidateInjective | src/modules/auth/auth.service.ts:511 | two different suffixes never give the same slug |
| Slugs.BaseShape | src/modules/auth/auth.service.ts:496-500 | the base is groups of letters and digits joined by single hyphens, at most 80 long, never starting with a hyphen and ending in one only where it was cut |
| Slugs.BaseOfBase | src/modules/auth/auth.service.ts:496-500 | slugifying a base again gives it back, less a hyphen the cut left |
| Slugs.BaseIsWords | src/modules/auth/auth.service.ts:496-500 | the base is the words of the lower-cased name joined by hyphens, the first 80 characters of that |
| Slugs.LowerIsAscii | src/modules/auth/auth.service.ts:497 | each capital becomes the letter in the same place of the alphabet and every other character stays |
| SyncScheduler.RunScheduledSync | src/modules/sync/sync-scheduler.service.ts:115-154 | each selected connection is attempted exactly once, in order, from the day before its last sync or thirty days back to today, put off by 2 or 4 minutes for Google Ads or Meta; dispatched counts the attempts the queue takes, and with failed makes the selection; one pause between each two batches of 50 |
| SyncScheduler.NoStarvation | src/modules/sync/sync-scheduler.service.ts:82-102 | with never-synced connections first, a connection that stays is taken within any ceil(N / cap) cycles; in the other order when all have been synced |
| SyncScheduler.FairExactly | src/modules/sync/sync-scheduler.service.ts:85-102 | with never-synced connections first that holds for every fleet; in the order of the query, nulls last, it holds if and only if all have been synced or one cycle takes the whole fleet, and otherwise a starving schedule exists |
| SyncScheduler.WithinCeilingExactly | src/modules/sync/sync-scheduler.service.ts:84-102 | with the cap of 500, N connections all have a turn within ceil(N / 500) cycles with never-synced ones first, and in the order of the query if and only if all have been synced or there are at most 500 |
| SyncScheduler.NullsLastStarves | src/modules/sync/sync-scheduler.service.ts:100 | under PostgreSQL's default order for ASC, nulls last, a never-synced connection is passed over for ever once a full cycle of others has been synced |
| SyncScheduler.WindowDays | src/modules/sync/sync-scheduler.service.ts:182-205 | in days, a window ends today and starts the day before the last sync or thirty days ago, whichever is later |
| SyncScheduler.WindowSpan | src/modules/sync/sync-scheduler.service.ts:182-205 | no window spans more than 31 days, and from ≤ to if and only if the last sync is at most one day ahead |
| SyncScheduler.RangeIsWindow | src/modules/sync/sync-scheduler.service.ts:201-204 | the two strings returned parse to the ends of the window |
| SyncScheduler.CoverageExact | src/modules/sync/sync-scheduler.service.ts:182-205 | over every serial run of a connection's jobs no day between the first and the last fetched is missing if and only if each success completes at most two days after its window ends and the next success is dispatched at most 31 days later |
| SyncScheduler.WindowsOfSuccesses | src/modules/integrations/integrations.service.ts:363-377 | only markSynced moves the last sync, so each window depends on the success before it and failed jobs do not matter |
| Alerts.AlertChecker.RunChecks | src/modules/alerts/processors/alert-check.processor.ts:57-154 | exactly the active alerts past their cooldown fire whose metric, summed over their period, is above or below the threshold or changed by it against the period before; each is recorded with that sum, up to the statement that fails |
| Alerts.AlertChecker.Persist | src/modules/alerts/processors/alert-check.processor.ts:133-154 | for each fired alert in order its event and then its lastTriggeredAt, and on no other; if a statement fails, exactly those before it |
| Alerts.AlertChecker.CheckGroup | src/modules/alerts/processors/alert-check.processor.ts:81-116 | one summary, and one prior summary only when needed, serve a whole group |
| Alerts.GroupedIsAlone | src/modules/alerts/processors/alert-check.processor.ts:84-115 | within a group each alert is judged as on its own |
| Alerts.SummaryAlone | src/modules/alerts/processors/alert-check.processor.ts:85-88 | asking for other metrics too does not change the value of one |
| Alerts.RangesAreDates | src/modules/alerts/processors/alert-check.processor.ts:208-215 | a weekly range is the seven days up to today and a daily one today; the prior range is as long and ends the day before |
| Alerts.PercentMeaning | src/modules/alerts/processors/alert-check.processor.ts:186-193 | a percent condition compares the value with the baseline changed by the threshold, the other way round for a negative baseline, and never fires on a zero one |
| Alerts.FiresExactly | src/modules/alerts/processors/alert-check.processor.ts:180-204 | one alert on its own fires if and only if it is past its cooldown and its condition holds of the sums over its period and the one before |
| Alerts.EventsRecord | src/modules/alerts/processors/alert-check.processor.ts:136-148 | an event carries the alert, its sum, threshold and condition, the time, and every recipient of the fired alerts once |
| Alerts.CooldownHolds | src/modules/alerts/processors/alert-check.processor.ts:200-204 | over every serial run of checks that may fail at any statement and be repeated, with a clock that does not go back, an event whose mark was written is followed by the next of its alert no sooner than the cooldown |
| Alerts.RetryRepeatsExactly | src/modules/alerts/processors/alert-check.processor.ts:135-153 | a check repeated within the cooldown on the same table fires, of the alerts whose event was written, exactly the one whose mark was not |
| Alerts.MarkAt | src/modules/alerts/processors/alert-check.processor.ts:150-153 | only fired alerts are marked, and nothing else of a row changes |
| Alerts.UniqueKeepsAll | src/modules/alerts/processors/alert-check.processor.ts:121-123 | the recipients are those of the fired alerts, each once |
| Encryption.DecryptEncrypt | src/common/encryption/encryption.service.ts:27-68 | decryption undoes encryption for every initialisation vector and plaintext |
| Encryption.EncryptDecrypt | src/common/encryption/encryption.service.ts:44-68 | a stored string that decrypts is the encryption of its plaintext if and only if its three fields are lower-case hexadecimal |
| Encryption.HexRoundTrip | src/common/encryption/encryption.service.ts:57-59 | decoding undoes encoding on all bytes |
| Encryption.HexBack | src/common/encryption/encryption.service.ts:57-59 | encoding undoes decoding exactly on pairs of lower-case digits |
| Encryption.FrameParts | src/common/encryption/encryption.service.ts:37 | splitting the stored string at the colons gives exactly its four fields |
| Encryption.HexIsWritten | src/common/encryption/encryption.service.ts:37 | each byte is its two hexadecimal digits, the high one first |
| Encryption.DigitsRead | src/common/encryption/encryption.service.ts:57-59 | hexadecimal digits are read in either case, and no other character is one |
| Encryption.DecryptRefuses | src/common/encryption/encryption.service.ts:44-54 | a stored string is refused for its form exactly when it has not four fields, and for its version when it does not begin with v1 |
| Text.JoinSplit | src/common/encryption/encryption.service.ts:45 | joining undoes splitting on every string |
| IntegrationTokens.TokensAreHistory | src/modules/integrations/integrations.service.ts:323-356 | over every run getDecryptedTokens never fails, answers null to another tenant, and gives the owner the last tokens and expiries supplied since the last disconnect |
| IntegrationTokens.RowIsHistory | src/modules/integrations/integrations.service.ts:36-411 | over every run a row shows the time of the last markSynced that applied, the status of the last call that says one, the last failure since it last worked, its message cut to 500 characters, and the account and scopes named last |
| IntegrationTokens.StatusKept | src/modules/integrations/integrations.service.ts:363-377 | a connection shown as connected keeps having an access token after every call, except exactly after markSynced on a row without one |
| IntegrationTokens.StatusOverRuns | src/modules/integrations/integrations.service.ts:363-377 | over a run the status is right all along if and only if no job ends on a row without a token |
| IntegrationTokens.TokenlessHappens | src/modules/integrations/integrations.service.ts:203-230 | storing tokens, disconnecting and a late markSynced leave a connection shown as connected without a token |
| IntegrationTokens.Integrations.UpsertConnection | src/modules/integrations/integrations.service.ts:36-103 | only fields that were supplied are overwritten; refused exactly without access, for another tenant's row, or for a new row over the plan limit |
| IntegrationTokens.Integrations.Store | src/modules/integrations/integrations.service.ts:256-296 | the access token is always replaced, the refresh token only when supplied |
| IntegrationTokens.Integrations.DisconnectPlatform | src/modules/integrations/integrations.service.ts:203-230 | clears tokens, expiries and scopes of an existing row and keeps the rest |
| IntegrationTokens.Integrations.Synced | src/modules/integrations/integrations.service.ts:363-377 | sets the last sync and the connected status and clears the error, tokens untouched |
| IntegrationTokens.Integrations.Expired | src/modules/integrations/integrations.service.ts:380-394 | sets status and error of the tenant's row only |
| IntegrationTokens.Integrations.Errored | src/modules/integrations/integrations.service.ts:397-411 | sets status and error of the tenant's row only |
| IntegrationTokens.Integrations.DecryptedTokens | src/modules/integrations/integrations.service.ts:323-356 | the branches in the order of the code compute the specified answer |
| AiReport.AcceptedIsCurrent | src/modules/ai/ai-report.service.ts:64-117 | whenever the cache check accepts, the stored summary was generated from the sections the report has now, less than 24 hours ago, however requests interleave, if changes of the sections do not overlap |
| AiReport.OverlapServesStale | src/modules/reports/reports.service.ts:89-105 | a run in which two overlapping changes write the same version and a summary of the first is accepted for the second |
| AiReport.OverlapExactly | src/modules/reports/reports.service.ts:89-105 | a change of sections that read version v and was overtaken leads to a stale summary if and only if the stored summary or a request in flight was read beyond version v + 1, or at v + 1 from other sections than those written |
| AiReport.RunInv | src/modules/ai/ai-report.service.ts:41-120 | each version stands for one set of sections, for the row, the requests in flight and the stored summary |
| AiReport.ServedForADay | src/modules/ai/ai-report.service.ts:57-78 | a stored summary of at least 50 characters, made from the version the report has, is served exactly for 24 hours and unless forced, until sections change or another is stored |
| AiReport.PdfOverRuns | src/modules/reports/reports.service.ts:95-107 | over every run the stored PDF shows the sections the report has if and only if no rendering is overtaken by a change of them |
| AiReport.PdfStep | src/modules/reports/reports.service.ts:103-104 | a change of sections removes the PDF; only a rendering that read other sections than the report then has leaves a stale one |
| AiReport.OvertakenHappens | src/modules/reports/report-render.service.ts:36-68 | a run in which the PDF of the old sections is stored after the change that removed it |
| AiReport.Report.ReadForSummary | src/modules/ai/ai-report.service.ts:50-78 | the cache check and the snapshot the generation works from |
| AiReport.Report.WriteSummary | src/modules/ai/ai-report.service.ts:104-119 | a text shorter than 50 characters is refused; otherwise the summary is stored under the version that was read |
| AiReport.Report.WriteUpdate | src/modules/reports/reports.service.ts:95-107 | a change of sections writes the version read plus one and clears the PDF; any other change leaves both |
| AiReport.Report.WritePdf | src/modules/reports/report-render.service.ts:62-66 | stores the key of the rendered file and nothing else |
| BillingWebhook.Deduplicated | src/modules/billing/billing-webhook.service.ts:54-89 | the state after any sequence of deliveries, failing ones included, is that after only the first recorded delivery of each event |
| BillingWebhook.HandledOnce | src/modules/billing/billing-webhook.service.ts:54-76 | each event's handler runs exactly once if some delivery of it could be recorded, and never otherwise |
| BillingWebhook.ProcessedExactly | src/modules/billing/billing-webhook.service.ts:54-89 | an event is marked processed if and only if its first recorded delivery met no unknown agency, customer or subscription in use, missing period end or failing statement |
| BillingWebhook.RefusedExactly | src/modules/billing/billing-webhook.service.ts:116-206 | a handler is refused exactly for an unknown agency, a customer or subscription in use, or a missing period end |
| BillingWebhook.FailureIsFinal | src/modules/billing/billing-webhook.service.ts:80-88 | after a first delivery that meets one of those conditions, every later delivery of the event is acknowledged without running the handler and it is never marked processed |
| BillingWebhook.CheckoutStaysUnlinked | src/modules/billing/billing-webhook.service.ts:127-131 | over every run the billing event of a checkout stays without a tenant if and only if no later successful checkout has a session with that event's id |
| BillingWebhook.LinkedExactly | src/modules/billing/billing-webhook.service.ts:116-132 | over every run an event has a tenant if and only if it had one or a successful named checkout with its id as session was delivered while it was on record |
| BillingWebhook.InvoicesSettle | src/modules/billing/billing-webhook.service.ts:181-206 | over every run of payment deliveries, repeated and failing ones included, only the status moves, and it is past due, active or unchanged according to the last invoice that took effect and whether an earlier one was unpaid |
| BillingWebhook.DeliveryRows | src/modules/billing/billing-webhook.service.ts:93-206 | for every delivery: a failed payment makes exactly the customer's agencies past due, a payment brings exactly the past due ones back, a checkout gives exactly the named agency the customer, subscription events write exactly theirs, and all else writes none |
| BillingWebhook.DeliveryRecords | src/modules/billing/billing-webhook.service.ts:54-132 | for every delivery: the record it adds with its time or failure, the tenant it links to which record, the answer, and that all other records stay |
| BillingWebhook.FailsBeforeWriting | src/modules/billing/billing-webhook.service.ts:93-132 | when the statements before a write fail, exactly unhandled events and checkouts without a tenant are still acknowledged |
| BillingWebhook.RecordStays | src/modules/billing/billing-webhook.service.ts:76-86 | no later delivery changes the outcome recorded for an event |
| BillingWebhook.RunUnique | src/modules/billing/billing-webhook.service.ts:116-206 | no run makes two agencies share a customer or a subscription |
| BillingWebhook.PlanFollowsPrice | src/modules/billing/constants/plans.ts:44-52 | after a subscription event that met none of the failing conditions the agency it is for has its subscription, status and period end and the plan its price stands for; after a deletion the entry plan and no agency with that subscription |
| BillingWebhook.WebhookService.HandleWebhook | src/modules/billing/billing-webhook.service.ts:37-89 | the statements in the order of the code leave the state and answer of the specified delivery step, and every agency as its event demands |
| BillingWebhook.WebhookService.DispatchEvent | src/modules/billing/billing-webhook.service.ts:93-114 | each type of event changes the agencies it is about in its own way, and no others; it succeeds exactly outside the failing conditions |
| BillingWebhook.WebhookService.CheckoutCompletedHandler | src/modules/billing/billing-webhook.service.ts:116-132 | gives the customer to the named agency and changes no other row or field; fails exactly for an unknown agency or a customer in use |
| BillingWebhook.WebhookService.SubscriptionChangedHandler | src/modules/billing/billing-webhook.service.ts:134-162 | writes the subscription to the named agency, else the customer's, and changes no other row; an absent price keeps the stored one and means the entry plan; fails exactly without a period end or for a subscription in use |
| BillingWebhook.WebhookService.SubscriptionDeletedHandler | src/modules/billing/billing-webhook.service.ts:164-179 | returns exactly the holder of the subscription to the entry plan |
| BillingWebhook.WebhookService.PaymentFailedHandler | src/modules/billing/billing-webhook.service.ts:181-192 | exactly the agencies of that customer become past due and nothing else of any row changes |
| BillingWebhook.WebhookService.PaymentSucceededHandler | src/modules/billing/billing-webhook.service.ts:194-206 | exactly the agencies of that customer that were past due become active and nothing else of any row changes |

## Left out

- Controllers, DTO validation, e-mail, HTML and PDF rendering, audit log and notifications: no state or arithmetic beyond what is passed through.
- Platform APIs, OAuth, S3, Anthropic, Stripe's signature check: their results are arbitrary inputs.
- Failures of Redis, which cache.service.ts answers with version 0; the cache properties assume it is available.
- The rounding of the decimal(20,6) cast and of floating point.
- E-mail verification links and the step 2 and 3 fields of registration: rows no other operation reads.
- Concurrent refreshes of one token and concurrent account operations in general.
- The reuse check of generatePdf, which compares times written by two machines, and the file the storage key names.
- parseExpiry: the lifetime of refresh tokens is a parameter.
- Plan limits as a global invariant: the code checks them at creation only, and so does the model.
- Manual and post-connect syncs, which use another window, jobs of one connection that overlap, and BullMQ's deduplication by job id.
- New connections joining during a fairness window: they would be taken first.
- The previous_year mode of shiftPeriod and subtractDays, which use local time.
- Stale cached summaries in an alert check: the check reads the table.
- Null customers in Stripe's objects; a customer is a string.
- SyncScheduler.NoStarvation: takes as given that a dispatched connection ends its cycle newer than every connection not dispatched, or leaves; a dispatch or job that fails keeps its old place.
- MetricsService.MetricsService.GetMetrics: takes ranges YYYY-MM-DD only; of the other forms the endpoints accept, those with a time of day are modelled in the label generator and not in the cached query.
- MetricsService.MetricsService.GetMetricSummary: takes ranges YYYY-MM-DD only, as the summary query compares days.
- Alerts.CooldownHolds: alerts may be edited between runs, but not their cooldown or last trigger.
