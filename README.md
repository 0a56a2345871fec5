# KPI dashboard analytics core, in Dafny

`app.py` is a Streamlit dashboard for department KPIs and work items. It
stores its facts in SQLite and keys every fact by a `YYYYMMDD` date id. This
project models the deterministic parts under the dashboard:

- **Dates** (`dates.dfy`): the date-key codec. `to_date_id` is the
  arithmetic `year * 10000 + month * 100 + day`, which is the integer that
  `int(strftime("%Y%m%d"))` yields for a four-digit year. `from_date_id` is
  modelled as written, with `str()` and fixed slices. The calendar is
  Python's, with leap years and `date.max`. The ISO week follows
  `date.isocalendar`.
- **DimDate** (`dim_date.dfy`): the `dim_date` table as a class with a
  `map` field. `ensure_dim_date` is a day loop that does INSERT OR IGNORE
  into an open transaction and commits only when the loop ends.
- **Trend** (`trend.dfy`): `calculate_trend` on exact reals.
- **Insights** (`insights.dfy`): `generate_insights` over rows passed in as
  parameters:
  - the KPI window, newest first, each row joined with its target direction;
  - the work items of the same scope;
  - today's date id.

  The per-KPI target rule and trend rule are functions. The overdue and
  high-risk scans are functions too. The generator itself is a method with
  an accumulating loop, proved equal to the function `AllInsights`.
- **SeverityOrder** (`severity.dfy`): the stable severity sort of the
  insight list, in place on an array.
- **Tiers** (`tiers.dfy`): the KPI card colour, the executive department
  colour and the risk-matrix score maps.
- **Access** (`access.dfy`): the login decision with the password hash
  left uninterpreted, the department scope, the navigation list and the
  administration gate.

Behaviours of the code that the lemmas make explicit:

- The per-KPI series is newest first, so `calculate_trend(..., 3)` treats
  the three *oldest* rows of the window as "recent". A positive KPI that
  keeps rising is therefore never reported as growing, and may be reported as
  falling (`Insights.RisingKpiNeverReportedAsGrowth`,
  `Insights.RisingKpiReportedAsFalling`).
- The KPI card ignores the target direction. For a lower-is-better KPI the
  card can be red while the insight reports success
  (`Tiers.LowerIsBetterCardDisagrees`). An actual value of 0, the entry
  form's default, gives a red card but no target insight
  (`Tiers.CardMatchesTargetInsight`).
- `get_user_dept_scope` returns the session's `dept_id` for every role other
  than Admin and Executive. The administration form can create a user with no
  department. Such a user gets the same unrestricted scope (`None`) as an
  administrator (`Access.UnassignedStaffSeesAll`). The function is never
  called in `app.py`: the department dashboards are listed for all four
  known roles alike.
- Without unique usernames only the first enabled row of a username is
  checked, so a later row's password is refused
  (`Access.DuplicateUsernameShadowsLaterRow`).
- `from_date_id` is dead code in `app.py`. It mis-decodes years below 1000
  and accepts ids of more than eight digits (see Findings).

## Model

| member | source | states |
|---|---|---|
| Dates.DateIdMonotone | app.py:160-161 | the key order is the calendar order, strict and equal alike, which the window filters `date_id >= week_ago_id` and `due_date_id < today_id` rely on |
| Dates.DateIdRange | app.py:160-161 | a key has eight digits exactly when the year has four; every key lies in 10101..99991231 |
| Dates.DateOfIdRoundTrip | app.py:160-165 | the arithmetic decoder inverts `to_date_id` for every valid date |
| Dates.DateOfId | app.py:163-165 | a decoded date is valid and encodes back to the same id |
| Dates.ToDateId | app.py:160-161 | the key's digits read back, by `// 10000`, `// 100 % 100` and `% 100`, the date's year, month and day |
| Dates.FromDateId | app.py:163-165 | `from_date_id` as written: whatever it returns is a valid date; `None` stands for the ValueError |
| Dates.EightDigitFields | app.py:163-165 | for an eight-digit id the three slices of `str(id)` are `id // 10000`, `id // 100 % 100` and `id % 100` |
| Dates.FromDateIdEightDigits | app.py:163-165 | on eight-digit ids the written decoder equals the arithmetic decoder, and it succeeds iff the id is the key of a valid date |
| Dates.FromDateIdRejectsMonth13 | app.py:163-165 | an eight-digit id whose month digits are 13 raises ValueError |
| Dates.FromDateIdRoundTrip | app.py:160-165 | `from_date_id(to_date_id(d)) == d` for every valid date with a four-digit year |
| Dates.FromDateIdShortYear | app.py:163-165 | 0999-01-01 encodes to 9990101, which the written decoder reads as 9990-10-01 |
| Dates.FromDateIdIgnoresExtraDigits | app.py:163-165 | a nine-digit id such as 202401011 decodes to 2024-01-01: characters after the eighth are ignored |
| Dates.NextDay | app.py:274 | `d + 1 day` is valid and later than `d`, and raises OverflowError exactly at 9999-12-31 |
| Dates.NextDayImmediate | app.py:274 | no valid date lies strictly between a day and the next day |
| Dates.Quarter | app.py:272 | `(month-1)//3+1` is in 1..4 and its three months contain the month |
| Dates.IsoWeek | app.py:272 | `isocalendar()[1]` is a week number in 1..53 |
| Dates.IsoWeekCounts | app.py:272 | the week number counts the Mondays since the Monday of ISO week 1, that of the previous ISO year before it, and is 1 from the next ISO year's week-1 Monday on |
| Dates.FourthOfJanuaryIsWeekOne | app.py:272 | January 4 always lies in ISO week 1 |
| DimDate.RowOf | app.py:270-272 | the inserted row carries the day's month and year, a quarter in 1..4 matching the month, and a week in 1..53 |
| DimDate.InsertOrIgnore | app.py:270-272 | one INSERT OR IGNORE adds the day's key, leaves an existing row untouched, and extends the fill by one day |
| DimDate.DimDateTable.EnsureDimDate | app.py:265-276 | the table after the call is the INSERT-OR-IGNORE fill of every day in `[start, end]`; past 9999-12-31 nothing is committed |
| DimDate.FilledCoversRange | app.py:268-274 | after the fill every day of the range has a row; an existing row is kept, and a new row has the day's month, year and quarter `(month-1)//3+1` in 1..4 |
| DimDate.FilledAddsOnlyRange | app.py:268-274 | the fill changes no existing row and adds only keys of days in the range, each holding that day's row |
| DimDate.Filled | app.py:268-274 | the keys after the fill are the table's keys together with the keys of every day in the range |
| DimDate.FillIdempotent | app.py:265-276 | running the fill twice over a range gives the same table as running it once |
| DimDate.FilledAddDay | app.py:270-272 | extending the range by one day inserts that day's row exactly when its key is missing |
| DimDate.DayIdsStep | app.py:268-274 | stepping to the next day adds exactly the current day's key to the range |
| DimDate.FillReachedEnd | app.py:268-275 | when the loop stops, the days filled are exactly those of `[start, end]`, and `end` was not the last day |
| Trend.CalculateTrend | app.py:440-458 | fewer than two values give `("stable", 0)`; otherwise the result is the classification of the recent and previous means |
| Trend.Classify | app.py:448-458 | a zero baseline gives `("new", 0)`; otherwise `change * previous == (recent - previous) * 100`, "up" iff change > 5, "down" iff change < -5 |
| Trend.Recent | app.py:445 | the recent mean times the tail's length equals the tail's sum |
| Trend.Previous | app.py:446 | with more values than periods the baseline times `n - periods` equals the sum of the first `n - periods` values; otherwise it is the first value |
| Trend.Tail | app.py:445 | `tail(periods)` keeps the last `min(periods, n)` values |
| Trend.MeanIsAverage | app.py:445-446 | the mean times the count equals the sum |
| Trend.AccumulateIsAverage | app.py:445-446 | the running-total mean is the total divided by the count |
| Trend.MeanBounds | app.py:445-446 | a mean lies between the least and the greatest value |
| Trend.GrowthAgainstPositiveBaseline | app.py:451-458 | against a positive baseline "up" iff recent > 1.05 x previous, "down" iff recent < 0.95 x previous, "stable" otherwise |
| Trend.GrowthAgainstNegativeBaseline | app.py:451-458 | against a negative baseline the comparisons flip |
| Trend.ThresholdsAsGrowth | app.py:451-456 | the ±5 percent thresholds expressed as ratios of recent to previous |
| Trend.NonIncreasingMeans | app.py:445-446 | on a positive non-increasing series the recent mean never exceeds the baseline mean |
| Trend.NonIncreasingNeverUp | app.py:440-458 | a positive series that never increases is never classified "up" |
| Trend.ConstantIsStable | app.py:440-458 | a constant non-zero series is `("stable", 0)` |
| Trend.RisingSeriesIsUp | app.py:440-458 | 80, 90, 95, 100, 110, 120, 130, 140, 150 with periods 3 is "up" by 24500/595 percent, about 41.2 |
| Trend.FallingSeriesIsDown | app.py:440-458 | 140, 130, 120, 110, 100 with periods 3 is "down" by 2500/135 percent |
| Insights.TargetInsight | app.py:489-520 | no insight without a non-zero target and a non-zero actual; higher-is-better: success/low iff actual >= target, danger/high iff actual < 0.8 x target; any other direction: success/low iff actual <= target, danger/high iff actual > 1.5 x target |
| Insights.TargetRuleAsRatio | app.py:489-520 | the same rule as bands of `actual / target`: a zero target or zero actual gives nothing; against a positive target the success, danger and silent bands (at least 1 / below 0.8 / between for higher-is-better; at most 1 / above 1.5 / between otherwise); against a negative target the bands flip and there is no silent band (higher-is-better: success iff ratio <= 1, danger iff ratio > 1; otherwise success iff ratio >= 1, danger iff ratio < 1) |
| Insights.RatioComparisonNegative | app.py:489-520 | dividing by a negative target reverses the comparison with a bound |
| Insights.ModeratelyOverTargetIsSilent | app.py:506-520 | 12 against a lower-is-better target of 8 emits nothing, since the danger test is strict at 1.5 |
| Insights.TrendInsight | app.py:522-538 | a trend insight needs at least three rows; info/medium iff "up" with change > 10, warning/medium iff "down" with change < -10, nothing otherwise |
| Insights.KpiIdsListsEachKpiOnce | app.py:480 | `unique()` lists every KPI of the window exactly once |
| Insights.RowsOfMembers | app.py:481 | a KPI's series holds exactly the window's rows of that KPI |
| Insights.RowsOfSingleKpi | app.py:481 | a window of one KPI is its own series |
| Insights.IdHasRows | app.py:480-485 | every listed KPI has a non-empty series, so its latest row exists |
| Insights.PerKpiSubject | app.py:479-538 | every per-KPI insight is about that KPI, and a KPI absent from the window gets none |
| Insights.PerKpi | app.py:479-538 | a KPI contributes at most two insights |
| Insights.CountOverdue | app.py:540-545 | the overdue count is positive iff some item is open (status not NULL, Done or Cancelled) with a due date before today |
| Insights.CountHighRisk | app.py:555-560 | the high-risk count is positive iff some open item has risk level High |
| Insights.AllInsights | app.py:476-477 | an empty KPI window gives an empty list, before any work-item scan |
| Insights.GenerateInsights | app.py:460-570 | the list the loop accumulates equals `AllInsights`: each KPI's insights in order of first appearance, then the scans |
| Insights.AppendKpiInsights | app.py:480-538 | one iteration of the KPI loop appends exactly that KPI's insights |
| Insights.AppendTargetInsight | app.py:489-520 | appends the target insight, if any, of the latest row |
| Insights.AppendTrendInsight | app.py:522-538 | appends the trend insight, if any, of the KPI's series |
| Insights.AppendScans | app.py:540-568 | appends the overdue insight, then the high-risk insight |
| Insights.KpiInsightsStep | app.py:480 | the KPI loop's output grows by one KPI's insights per iteration |
| Insights.InsightsOfKpi | app.py:479-538 | the insights about a KPI in the whole list are exactly that KPI's target and trend insights |
| Insights.OverdueInsight | app.py:540-553 | at most one overdue insight, danger/high with the count, present iff the window is non-empty and some open item is overdue |
| Insights.HighRiskInsight | app.py:555-568 | at most one high-risk insight, warning/medium with the count, present iff the window is non-empty and some open item is High risk |
| Insights.ScanInsights | app.py:540-568 | the scans emit at most two insights, and none iff no open item is overdue and none is High risk |
| Insights.SeverityOfText | app.py:1197-1198 | the texts "high", "medium" and "low" map to their severities, and any other text is kept as an other severity |
| Insights.ScanSelection | app.py:540-568 | the scans emit no KPI insight, and at most one of each kind |
| Insights.SelectMembers | app.py:460-570 | selecting by subject keeps exactly the insights with that subject |
| Insights.SelectAppend | app.py:460-570 | selection distributes over concatenation |
| Insights.SelectKpiInsights | app.py:479-538 | with distinct KPI ids, a KPI's part of the loop output is its own insights |
| Insights.KpiInsightsHoldNoScan | app.py:479-538 | the KPI loop emits no work-item insight |
| Insights.SelectAll | app.py:460-570 | a list about one subject is kept whole or dropped whole by a selection |
| Insights.SeriesNewestFirst | app.py:473-481 | a KPI's series keeps the window's newest-first order |
| Insights.LatestIsNewest | app.py:485 | the "latest" row is the KPI's newest row in the window |
| Insights.SeriesNeverRises | app.py:473-481 | in newest-first order the series of any KPI that never falls over time never increases, whatever the sign of its values |
| Insights.SeriesPositive | app.py:481 | the series of a KPI whose readings are all positive holds only positive values |
| Insights.RisingKpiNeverReportedAsGrowth | app.py:522-531 | a positive KPI whose value never falls over time never gets the "growing" info insight |
| Insights.RisingKpiReportedAsFalling | app.py:479-538 | a KPI rising 100 to 140 over five days, with no target, gets only the "falling" warning insight |
| SeverityOrder.Rank | app.py:1197-1198 | ranks lie in 0..3, and rank 3 is exactly the `.get(..., 3)` default for a severity other than high, medium and low |
| SeverityOrder.RankOfText | app.py:1197-1198 | the rank of a severity text is `{"high": 0, "medium": 1, "low": 2}.get(text, 3)` |
| SeverityOrder.SeveritySorted | app.py:1197-1198 | sorting keeps the length: the ordering has as many insights as its input |
| SeverityOrder.SortBySeverity | app.py:1197-1198 | the array after the in-place sort is the stable severity ordering of its old contents |
| SeverityOrder.CollectByRank | app.py:1197-1198 | the rank groups collected in order are the stable severity ordering |
| SeverityOrder.CollectRank | app.py:1197-1198 | a pass over the list appends exactly the insights of one rank, in list order |
| SeverityOrder.SeveritySortedIsSorted | app.py:1197-1198 | the sorted list is non-decreasing in rank |
| SeverityOrder.SeveritySortedIsPermutation | app.py:1197-1198 | the sorted list is a permutation of the input |
| SeverityOrder.SeveritySortedIsStable | app.py:1197-1198 | insights of equal rank keep their relative order |
| SeverityOrder.SortedByGroupsIsUnique | app.py:1197-1198 | any rank-sorted list that keeps each rank's order is the ordering, so the ordering is the stable sort |
| SeverityOrder.SortedIsItsGroups | app.py:1197-1198 | sorting a list that is already sorted leaves it unchanged |
| SeverityOrder.GroupsPartition | app.py:1197-1198 | the four rank groups together hold every insight of the list exactly once |
| SeverityOrder.WithRankMembers | app.py:1197-1198 | a rank group holds exactly the insights of that rank |
| Tiers.KpiCardTier | app.py:621-634 | no target or a zero target gives blue; against a positive target green iff value >= target, amber iff 0.8 x target <= value < target, red iff value < 0.8 x target |
| Tiers.NegativeTargetFlips | app.py:621-631 | against a negative target the card is green iff value <= target |
| Tiers.ExecutiveTier | app.py:1118-1120 | a missing or zero average gives red; otherwise green iff average >= 1, amber iff 0.8 <= average < 1, red below |
| Tiers.ExecutiveAgreesWithCard | app.py:621-634 | for one KPI with a non-zero target the executive colour equals the card colour |
| Tiers.CardMatchesTargetInsight | app.py:489-505 | for higher-is-better with a positive target and a non-zero value: green iff success insight, red iff danger insight, amber iff no target insight; with value 0 (the entry form's default) the card is red while the insight rule emits nothing (app.py:621-634) |
| Tiers.LowerIsBetterCardDisagrees | app.py:506-513 | 4 against a lower-is-better target of 8 is a success insight but a red card |
| Tiers.RiskScore | app.py:875-878 | Low 1, High 3, anything else including NULL 2 |
| Tiers.PriorityScore | app.py:876-879 | Low 1, High 3, Critical 4, anything else including NULL 2 |
| Tiers.ScoresAgreeOnSharedLevels | app.py:875-879 | the two scales agree except on Critical, which scores 4 as a priority and 2 as a risk |
| Access.FirstEnabled | app.py:407-410 | the row found is the first enabled row of that username (`iloc[0]`): no earlier row is an enabled row of it; none iff the user has no enabled row |
| Access.FirstEnabledIsTheRow | app.py:203-207 | with usernames unique the row found is the user's own row |
| Access.Login | app.py:406-420 | a session is opened only from an enabled row of the username whose stored hash equals the password's hash, and it carries that row's fields |
| Access.LoginDecision | app.py:406-420 | for any table, login succeeds iff the first enabled row of the username stores the password's hash, and the session carries that row's role and department |
| Access.DuplicateUsernameShadowsLaterRow | app.py:406-420 | two enabled rows of one username: the password matching only the second row is refused |
| Access.LoginSucceedsIff | app.py:406-420 | login succeeds iff the user has an enabled row whose stored hash equals the password's hash |
| Access.DisabledUserCannotLogIn | app.py:407-409 | a user without an enabled row cannot log in with any password |
| Access.LoginSeesOnlyTheHash | app.py:411 | two passwords with the same hash get the same login result |
| Access.DeptScope | app.py:431-435 | Admin and Executive get no scope restriction; every other role gets the session's department, which may itself be missing |
| Access.ScopeAfterLogin | app.py:406-435 | after login, a user of another role is scoped to the department of their own row |
| Access.UnassignedStaffSeesAll | app.py:431-435 | staff without a department get the same unrestricted scope as an administrator |
| Access.Pages | app.py:1507-1518 | the executive dashboard first; report generator and data import always; the four department dashboards iff the role is one of the four known roles; administration iff Admin; no page twice |
| Access.Route | app.py:1525-1547 | a page is rendered unless it is administration and the role is not Admin, which is denied |
| Access.MenuAndGateAgree | app.py:1507-1547 | a page the menu offers is never denied, and administration is offered exactly to those the gate admits |

## Left out

- The Streamlit UI, CSS, HTML strings, the Plotly charts and the session state are presentation and are not modelled.
- SQLite I/O is not modelled. The queries' results are parameters, so the department `where_clause` and the week window become facts about the input rows. The executive page's SQL `AVG(actual/NULLIF(target,0))` is taken as its result, an optional real.
- `seed_demo_data`, `uid`, `date.today()` and `datetime.now()` are not modelled. Today's id is a parameter.
- `sha256` is the uninterpreted function parameter `hash`. The `st.session_state` write in `login` becomes the returned `Session`. `logout` and `current_user` are session plumbing.
- Excel, CSV and JSON export and file import are thin wrappers over pandas and are not modelled. `forecast_simple` is never called and is not modelled either.
- Insight text (Thai strings, `:.1f` formatting) and icons are not modelled. An insight is its type, severity and subject.
- `insights[:8]` after the sort is display truncation and is not modelled.
- Trend.Mean uses exact reals with a left-to-right running total. Python float rounding and pandas' NaN handling of NULL actual values are not modelled: actual values are non-null reals. A NULL target is `None`; where pandas reads it back as NaN, the target rule (app.py:489-520) enters its branch but every comparison with NaN is false, so it emits nothing, as the model does for `None`. The KPI card differs (see Tiers.KpiCardTier).
- SeverityOrder.SortBySeverity: Python's timsort is modelled by its specification, the unique stable ordering by rank, computed as four in-order passes. The intermediate states of timsort are not modelled.
- Severity is a datatype with `OtherSeverity(text)` for any severity text other than high, medium or low. All such texts rank 3, as `.get(..., 3)` does.
- Dates.IsoWeek: the week is characterised by `Dates.IsoWeekCounts` relative to the Monday of week 1 (the Monday on or before January 4). That Monday is computed from the model's own weekday count; no second, independent calendar is compared against it.
- Dates.FromDateId: for ids of nine or more digits the written decoder reads the first eight characters and accepts the id. The model follows the code here (see `Dates.FromDateIdIgnoresExtraDigits`).
- Access.FirstEnabledIsTheRow, Access.LoginSucceedsIff, Access.ScopeAfterLogin: these assume unique usernames. `dim_user` is created with `username` as its primary key (app.py:203-207), but `replace_table` rebuilds it through `to_sql(..., if_exists="replace")` without any key (app.py:147-152, 393), after which Add User (app.py:1414-1420) can insert a second row for an existing username. For any table, `Access.LoginDecision` states the result in terms of the first enabled row.
- Insights.GenerateInsights: the department-scoped calls `generate_insights('MDS')` and the like (app.py:816, 925, 1003, 1087) put an unqualified `dept_id` into the WHERE clause (app.py:467-472); both `dim_kpi` (app.py:191-195) and `fact_kpi_data` (app.py:210-214) have that column, so SQLite rejects the query as ambiguous and those calls raise. Only the unscoped call (app.py:1194) reaches the rules, and the model describes that call; the department filter on its input rows is not a behaviour the code ever exhibits.
- Access.Route: the empty main area for a page outside the list is not modelled, because the page always comes from the navigation list.
- Tiers.KpiCardTier: a NaN or NULL card value is not modelled. A NULL target that pandas reads back as NaN (the column holds other numeric targets) is truthy in `if target:` and every comparison of the ratio is false, so the card is red (app.py:621-630); the model's `None` target gives blue, which is what happens only when the value stays `None`.

## Findings

| source | as written | input that shows it | evidently intended | confidence | as-written member | corrected member |
|---|---|---|---|---|---|---|
| app.py:163-165 | `from_date_id` slices `str(date_id)` at fixed positions 4, 6 and 8 | 0999-01-01: `to_date_id` gives 9990101, which decodes to 9990-10-01 | decode the integer arithmetically (`id // 10000`, `id // 100 % 100`, `id % 100`) so every valid date round-trips | not executed; medium, since `from_date_id` is not called anywhere in app.py and years below 1000 do not occur in its data | Dates.FromDateIdShortYear | Dates.DateOfIdRoundTrip |
