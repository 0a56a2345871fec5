/** `generate_insights`: rule-based insights over the KPI rows of the last
    week and the open work items. The fetched rows are parameters: `rows` is
    the KPI window as the query returns it (joined with each KPI's target
    direction, newest first), `items` the work items of the same scope. */
module Insights {
  import opened Wrappers
  import opened Trend

  /** A `fact_kpi_data` row joined with its KPI's `target_direction`; the
      target may be NULL. */
  datatype KpiRow = KpiRow(kpiId: string, dateId: int, actual: real, target: Option<real>, targetDirection: string)

  /** The columns of `fact_work_item` the scans read; each may be NULL. */
  datatype WorkItem = WorkItem(status: Option<string>, dueDateId: Option<int>, riskLevel: Option<string>)

  /** The `type` of an insight. */
  datatype Kind = Success | Danger | Info | Warning

  /** What an insight is about: one KPI, or a count of work items. */
  datatype Subject = Kpi(kpiId: string) | OverdueWork(count: nat) | HighRiskWork(count: nat)

  /** The `severity` text of an insight: the three values the rules emit, or
      any other text. The rules only ever build `High`, `Medium` and `Low`;
      a text is read into this type by `SeverityOfText`, so `OtherSeverity`
      never carries one of the three known texts. */
  datatype Severity = High | Medium | Low | OtherSeverity(text: string)

  /** The severity a text stands for. */
  function SeverityOfText(text: string): (severity: Severity)
    ensures severity == High <==> text == "high"
    ensures severity == Medium <==> text == "medium"
    ensures severity == Low <==> text == "low"
    ensures severity.OtherSeverity? ==> severity.text == text
  {
    if text == "high" then High
    else if text == "medium" then Medium
    else if text == "low" then Low
    else OtherSeverity(text)
  }

  /** An insight with its type and severity; the display text is not modelled. */
  datatype Insight = Insight(kind: Kind, severity: Severity, subject: Subject)

  const HigherIsBetter := "higher_is_better"

  function Abs(x: real): real {
    if x < 0.0 then -x else x
  }

  // ---------------------------------------------------------------- KPI rules

  /** The target rule on a KPI's latest row. A missing or zero target or a
      zero actual gives nothing; otherwise meeting the target is a low-severity
      success, and missing it by a wide margin (below 80 percent of a
      higher-is-better target, above 150 percent of any other) a high-severity
      danger. */
  function TargetInsight(kpiId: string, actual: real, target: Option<real>, direction: string): (r: Option<Insight>)
    ensures r.Some? ==> target.Some? && target.value != 0.0 && actual != 0.0
    ensures r.Some? ==> r.value.subject == Kpi(kpiId)
    ensures r.Some? ==> r.value == Insight(Success, Low, Kpi(kpiId)) || r.value == Insight(Danger, High, Kpi(kpiId))
    ensures target.Some? && target.value != 0.0 && actual != 0.0 && direction == HigherIsBetter ==>
      && (r == Some(Insight(Success, Low, Kpi(kpiId))) <==> actual >= target.value)
      && (r == Some(Insight(Danger, High, Kpi(kpiId))) <==> actual < target.value && actual < 0.8 * target.value)
    ensures target.Some? && target.value != 0.0 && actual != 0.0 && direction != HigherIsBetter ==>
      && (r == Some(Insight(Success, Low, Kpi(kpiId))) <==> actual <= target.value)
      && (r == Some(Insight(Danger, High, Kpi(kpiId))) <==> actual > target.value && actual > 1.5 * target.value)
  {
    if target.None? || target.value == 0.0 || actual == 0.0 then None
    else if direction == HigherIsBetter then
      if actual >= target.value then Some(Insight(Success, Low, Kpi(kpiId)))
      else if actual < target.value * 0.8 then Some(Insight(Danger, High, Kpi(kpiId)))
      else None
    else
      if actual <= target.value then Some(Insight(Success, Low, Kpi(kpiId)))
      else if actual > target.value * 1.5 then Some(Insight(Danger, High, Kpi(kpiId)))
      else None
  }

  /** The rule as an achievement ratio `actual / target`. A zero target or a
      zero actual gives nothing. Against a positive target: for a
      higher-is-better KPI, success at 100 percent or more, danger below 80
      percent and nothing in between; for any other, success at 100 percent or
      less, danger above 150 percent and nothing in between. Against a
      negative target the ratio bands flip and there is no silent band: every
      reading is a success or a danger, split at 100 percent. */
  lemma TargetRuleAsRatio(kpiId: string, actual: real, target: real, direction: string)
    ensures target == 0.0 || actual == 0.0 ==> TargetInsight(kpiId, actual, Some(target), direction).None?
    ensures target > 0.0 && actual != 0.0 && direction == HigherIsBetter ==>
      && (TargetInsight(kpiId, actual, Some(target), direction) == Some(Insight(Success, Low, Kpi(kpiId))) <==> actual / target >= 1.0)
      && (TargetInsight(kpiId, actual, Some(target), direction) == Some(Insight(Danger, High, Kpi(kpiId))) <==> actual / target < 0.8)
      && (TargetInsight(kpiId, actual, Some(target), direction).None? <==> 0.8 <= actual / target < 1.0)
    ensures target > 0.0 && actual != 0.0 && direction != HigherIsBetter ==>
      && (TargetInsight(kpiId, actual, Some(target), direction) == Some(Insight(Success, Low, Kpi(kpiId))) <==> actual / target <= 1.0)
      && (TargetInsight(kpiId, actual, Some(target), direction) == Some(Insight(Danger, High, Kpi(kpiId))) <==> actual / target > 1.5)
      && (TargetInsight(kpiId, actual, Some(target), direction).None? <==> 1.0 < actual / target <= 1.5)
    ensures target < 0.0 && actual != 0.0 && direction == HigherIsBetter ==>
      && (TargetInsight(kpiId, actual, Some(target), direction) == Some(Insight(Success, Low, Kpi(kpiId))) <==> actual / target <= 1.0)
      && (TargetInsight(kpiId, actual, Some(target), direction) == Some(Insight(Danger, High, Kpi(kpiId))) <==> actual / target > 1.0)
    ensures target < 0.0 && actual != 0.0 && direction != HigherIsBetter ==>
      && (TargetInsight(kpiId, actual, Some(target), direction) == Some(Insight(Success, Low, Kpi(kpiId))) <==> actual / target >= 1.0)
      && (TargetInsight(kpiId, actual, Some(target), direction) == Some(Insight(Danger, High, Kpi(kpiId))) <==> actual / target < 1.0)
  {
    if target > 0.0 {
      RatioComparison(actual, target, 1.0);
      RatioComparison(actual, target, 0.8);
      RatioComparison(actual, target, 1.5);
    } else if target < 0.0 {
      RatioComparisonNegative(actual, target, 1.0);
    }
  }

  /** Comparing an achievement ratio with `k` is comparing the actual value
      with `k` times a positive target. */
  lemma RatioComparison(actual: real, target: real, k: real)
    requires target > 0.0
    ensures actual / target >= k <==> actual >= k * target
    ensures actual / target > k <==> actual > k * target
  {
    var ratio := actual / target;
    assert actual == ratio * target;
    if ratio >= k {
      assert (ratio - k) * target >= 0.0;
    } else {
      assert (k - ratio) * target > 0.0;
    }
    if ratio > k {
      assert (ratio - k) * target > 0.0;
    } else {
      assert (k - ratio) * target >= 0.0;
    }
  }

  /** Dividing by a negative target reverses the comparison. */
  lemma RatioComparisonNegative(actual: real, target: real, k: real)
    requires target < 0.0
    ensures actual / target >= k <==> actual <= k * target
    ensures actual / target > k <==> actual < k * target
  {
    var ratio := actual / target;
    assert actual == ratio * target;
    if ratio >= k {
      assert (ratio - k) * target <= 0.0;
    } else {
      assert (k - ratio) * target < 0.0;
    }
    if ratio > k {
      assert (ratio - k) * target < 0.0;
    } else {
      assert (k - ratio) * target <= 0.0;
    }
  }

  /** A lower-is-better KPI at 12 against a target of 8 is above target but
      not above 150 percent of it, so it gets no target insight at all. */
  lemma ModeratelyOverTargetIsSilent()
    ensures TargetInsight("IT_K2", 12.0, Some(8.0), "lower_is_better").None?
  {
  }

  /** The trend rule: with at least 3 rows, a trend over the last 3 values
      that is up by more than 10 percent is a medium-severity info, one that
      is down by more than 10 percent a medium-severity warning; nothing
      else gives a trend insight. */
  function TrendInsight(kpiId: string, values: seq<real>): (r: Option<Insight>)
    ensures r.Some? ==> |values| >= 3
    ensures r == Some(Insight(Info, Medium, Kpi(kpiId))) <==>
      |values| >= 3 && CalculateTrend(values, 3).direction == Up && CalculateTrend(values, 3).change > 10.0
    ensures r == Some(Insight(Warning, Medium, Kpi(kpiId))) <==>
      |values| >= 3 && CalculateTrend(values, 3).direction == Down && CalculateTrend(values, 3).change < -10.0
    ensures r.None? || r.value == Insight(Info, Medium, Kpi(kpiId)) || r.value == Insight(Warning, Medium, Kpi(kpiId))
  {
    if |values| < 3 then None
    else
      var t := CalculateTrend(values, 3);
      if t.direction == Up && Abs(t.change) > 10.0 then Some(Insight(Info, Medium, Kpi(kpiId)))
      else if t.direction == Down && Abs(t.change) > 10.0 then Some(Insight(Warning, Medium, Kpi(kpiId)))
      else None
  }

  // ------------------------------------------------------- grouping by KPI

  /** `kpi_df['kpi_id'].unique()`: the KPI ids in order of first appearance. */
  function KpiIds(rows: seq<KpiRow>): (ids: seq<string>)
    ensures |ids| <= |rows|
  {
    if |rows| == 0 then []
    else
      var earlier := KpiIds(rows[..|rows| - 1]);
      if rows[|rows| - 1].kpiId in earlier then earlier else earlier + [rows[|rows| - 1].kpiId]
  }

  /** The ids are exactly the KPIs that have a row, each listed once. */
  lemma {:induction false} KpiIdsListsEachKpiOnce(rows: seq<KpiRow>)
    ensures forall k :: k in KpiIds(rows) <==> exists i :: 0 <= i < |rows| && rows[i].kpiId == k
    ensures forall a, b :: 0 <= a < b < |KpiIds(rows)| ==> KpiIds(rows)[a] != KpiIds(rows)[b]
  {
    if |rows| > 0 {
      var init := rows[..|rows| - 1];
      KpiIdsListsEachKpiOnce(init);
      assert forall i :: 0 <= i < |init| ==> init[i] == rows[i];
    }
  }

  /** `kpi_df[kpi_df['kpi_id'] == kpiId]`: the rows of one KPI, in window order. */
  function RowsOf(rows: seq<KpiRow>, kpiId: string): (series: seq<KpiRow>)
    ensures |series| <= |rows|
  {
    if |rows| == 0 then []
    else
      var earlier := RowsOf(rows[..|rows| - 1], kpiId);
      if rows[|rows| - 1].kpiId == kpiId then earlier + [rows[|rows| - 1]] else earlier
  }

  /** The series holds exactly the window's rows of that KPI. */
  lemma {:induction false} RowsOfMembers(rows: seq<KpiRow>, kpiId: string)
    ensures forall r :: r in RowsOf(rows, kpiId) <==> r in rows && r.kpiId == kpiId
  {
    if |rows| > 0 {
      RowsOfMembers(rows[..|rows| - 1], kpiId);
      assert rows == rows[..|rows| - 1] + [rows[|rows| - 1]];
    }
  }

  /** A window holding one KPI only is that KPI's whole series. */
  lemma {:induction false} RowsOfSingleKpi(rows: seq<KpiRow>, kpiId: string)
    requires forall i :: 0 <= i < |rows| ==> rows[i].kpiId == kpiId
    ensures RowsOf(rows, kpiId) == rows
  {
    if |rows| > 0 {
      RowsOfSingleKpi(rows[..|rows| - 1], kpiId);
      assert rows == rows[..|rows| - 1] + [rows[|rows| - 1]];
    }
  }

  /** Every listed id has at least one row. */
  lemma IdHasRows(rows: seq<KpiRow>, j: int)
    requires 0 <= j < |KpiIds(rows)|
    ensures RowsOf(rows, KpiIds(rows)[j]) != []
  {
    var kpiId := KpiIds(rows)[j];
    KpiIdsListsEachKpiOnce(rows);
    RowsOfMembers(rows, kpiId);
    assert kpiId in KpiIds(rows);
    var i :| 0 <= i < |rows| && rows[i].kpiId == kpiId;
    assert rows[i] in RowsOf(rows, kpiId);
  }

  /** The `actual_value` column of a series. */
  function Actuals(series: seq<KpiRow>): (values: seq<real>)
    ensures |values| == |series|
    ensures forall i :: 0 <= i < |series| ==> values[i] == series[i].actual
  {
    seq(|series|, i requires 0 <= i < |series| => series[i].actual)
  }

  /** The insights of one KPI: the target rule on its first (latest) row,
      then the trend rule on its series. */
  function PerKpi(rows: seq<KpiRow>, kpiId: string): (r: seq<Insight>)
    ensures |r| <= 2
  {
    var series := RowsOf(rows, kpiId);
    if series == [] then []
    else
      var latest := series[0];
      ToSeq(TargetInsight(kpiId, latest.actual, latest.target, latest.targetDirection))
        + ToSeq(TrendInsight(kpiId, Actuals(series)))
  }

  /** A KPI's insights are all about that KPI, and a KPI without rows has none. */
  lemma PerKpiSubject(rows: seq<KpiRow>, kpiId: string)
    ensures forall x :: x in PerKpi(rows, kpiId) ==> x.subject == Kpi(kpiId)
    ensures (forall i :: 0 <= i < |rows| ==> rows[i].kpiId != kpiId) ==> PerKpi(rows, kpiId) == []
  {
    var series := RowsOf(rows, kpiId);
    if series != [] {
      var latest := series[0];
      var target := ToSeq(TargetInsight(kpiId, latest.actual, latest.target, latest.targetDirection));
      var trend := ToSeq(TrendInsight(kpiId, Actuals(series)));
      assert PerKpi(rows, kpiId) == target + trend;
      RowsOfMembers(rows, kpiId);
      assert latest in rows;
    }
  }

  /** The KPI insights for the ids in `ids`, in that order. */
  function KpiInsights(rows: seq<KpiRow>, ids: seq<string>): seq<Insight> {
    if |ids| == 0 then [] else KpiInsights(rows, ids[..|ids| - 1]) + PerKpi(rows, ids[|ids| - 1])
  }

  // ---------------------------------------------------- work-item scans

  /** `status NOT IN ('Done', 'Cancelled')`; a NULL status fails the test. */
  predicate IsOpen(w: WorkItem) {
    w.status.Some? && w.status.value != "Done" && w.status.value != "Cancelled"
  }

  /** `due_date_id < today_id` on an open item; a NULL due date fails the test. */
  predicate IsOverdue(w: WorkItem, todayId: int) {
    w.dueDateId.Some? && w.dueDateId.value < todayId && IsOpen(w)
  }

  /** `risk_level = 'High'` on an open item. */
  predicate IsHighRisk(w: WorkItem) {
    w.riskLevel == Some("High") && IsOpen(w)
  }

  /** The number of rows the overdue query returns. */
  function CountOverdue(items: seq<WorkItem>, todayId: int): (n: nat)
    ensures n <= |items|
    ensures n > 0 <==> exists i :: 0 <= i < |items| && IsOverdue(items[i], todayId)
  {
    if |items| == 0 then 0
    else
      assert forall i :: 0 <= i < |items| - 1 ==> items[..|items| - 1][i] == items[i];
      CountOverdue(items[..|items| - 1], todayId) + if IsOverdue(items[|items| - 1], todayId) then 1 else 0
  }

  /** The number of rows the high-risk query returns. */
  function CountHighRisk(items: seq<WorkItem>): (n: nat)
    ensures n <= |items|
    ensures n > 0 <==> exists i :: 0 <= i < |items| && IsHighRisk(items[i])
  {
    if |items| == 0 then 0
    else
      assert forall i :: 0 <= i < |items| - 1 ==> items[..|items| - 1][i] == items[i];
      CountHighRisk(items[..|items| - 1]) + if IsHighRisk(items[|items| - 1]) then 1 else 0
  }

  /** The insights the two scans add: a high-severity danger for overdue
      items, then a medium-severity warning for high-risk items. */
  function ScanInsights(items: seq<WorkItem>, todayId: int): (r: seq<Insight>)
    ensures |r| <= 2
    ensures r == [] <==> CountOverdue(items, todayId) == 0 && CountHighRisk(items) == 0
  {
    (if CountOverdue(items, todayId) > 0 then [Insight(Danger, High, OverdueWork(CountOverdue(items, todayId)))] else [])
      + (if CountHighRisk(items) > 0 then [Insight(Warning, Medium, HighRiskWork(CountHighRisk(items)))] else [])
  }

  /** The whole list: nothing at all for an empty KPI window, else the
      insights of each KPI in order of first appearance, then the scans. */
  function AllInsights(rows: seq<KpiRow>, items: seq<WorkItem>, todayId: int): (r: seq<Insight>)
    ensures rows == [] ==> r == []
  {
    if rows == [] then [] else KpiInsights(rows, KpiIds(rows)) + ScanInsights(items, todayId)
  }

  /** The target rule as `generate_insights` runs it on the latest row,
      appending to the list. */
  method AppendTargetInsight(insights: seq<Insight>, kpiId: string, latest: KpiRow) returns (out: seq<Insight>)
    ensures out == insights + ToSeq(TargetInsight(kpiId, latest.actual, latest.target, latest.targetDirection))
  {
    out := insights;
    if latest.target.Some? && latest.target.value != 0.0 && latest.actual != 0.0 {
      var actual, target := latest.actual, latest.target.value;
      if latest.targetDirection == HigherIsBetter {
        if actual >= target {
          out := out + [Insight(Success, Low, Kpi(kpiId))];
        } else if actual < target * 0.8 {
          out := out + [Insight(Danger, High, Kpi(kpiId))];
        }
      } else {
        if actual <= target {
          out := out + [Insight(Success, Low, Kpi(kpiId))];
        } else if actual > target * 1.5 {
          out := out + [Insight(Danger, High, Kpi(kpiId))];
        }
      }
    }
  }

  /** The trend rule as `generate_insights` runs it on a KPI's series,
      appending to the list. */
  method AppendTrendInsight(insights: seq<Insight>, kpiId: string, series: seq<KpiRow>) returns (out: seq<Insight>)
    ensures out == insights + ToSeq(TrendInsight(kpiId, Actuals(series)))
  {
    out := insights;
    if |series| >= 3 {
      var trend := CalculateTrend(Actuals(series), 3);
      if trend.direction == Up && Abs(trend.change) > 10.0 {
        out := out + [Insight(Info, Medium, Kpi(kpiId))];
      } else if trend.direction == Down && Abs(trend.change) > 10.0 {
        out := out + [Insight(Warning, Medium, Kpi(kpiId))];
      }
    }
  }

  lemma KpiInsightsStep(rows: seq<KpiRow>, ids: seq<string>, j: int)
    requires 0 <= j < |ids|
    ensures KpiInsights(rows, ids[..j + 1]) == KpiInsights(rows, ids[..j]) + PerKpi(rows, ids[j])
  {
    assert ids[..j + 1][..j] == ids[..j];
  }

  lemma WholePrefix(rows: seq<KpiRow>, ids: seq<string>)
    ensures KpiInsights(rows, ids[..|ids|]) == KpiInsights(rows, ids)
  {
    assert ids[..|ids|] == ids;
  }

  /** One turn of the `for kpi_id` loop: the KPI's rows, its latest row,
      then the target and the trend rule. */
  method AppendKpiInsights(insights: seq<Insight>, rows: seq<KpiRow>, kpiId: string) returns (out: seq<Insight>)
    requires RowsOf(rows, kpiId) != []
    ensures out == insights + PerKpi(rows, kpiId)
  {
    var series := RowsOf(rows, kpiId);
    var latest := series[0];
    out := AppendTargetInsight(insights, kpiId, latest);
    out := AppendTrendInsight(out, kpiId, series);
  }

  /** `generate_insights`: one pass over the KPI ids appending each KPI's
      target and trend insights, then the two scans. */
  method GenerateInsights(rows: seq<KpiRow>, items: seq<WorkItem>, todayId: int) returns (insights: seq<Insight>)
    ensures insights == AllInsights(rows, items, todayId)
  {
    insights := [];
    if |rows| == 0 {
      return;
    }
    var ids := KpiIds(rows);
    for j := 0 to |ids|
      invariant insights == KpiInsights(rows, ids[..j])
    {
      IdHasRows(rows, j);
      insights := AppendKpiInsights(insights, rows, ids[j]);
      KpiInsightsStep(rows, ids, j);
    }
    WholePrefix(rows, ids);
    insights := AppendScans(insights, items, todayId);
  }

  /** The overdue and high-risk queries, each appending one insight when it
      returns any row. */
  method AppendScans(insights: seq<Insight>, items: seq<WorkItem>, todayId: int) returns (out: seq<Insight>)
    ensures out == insights + ScanInsights(items, todayId)
  {
    out := insights;
    var overdue := CountOverdue(items, todayId);
    if overdue > 0 {
      out := out + [Insight(Danger, High, OverdueWork(overdue))];
    }
    ghost var afterOverdue := out;
    var risky := CountHighRisk(items);
    if risky > 0 {
      out := out + [Insight(Warning, Medium, HighRiskWork(risky))];
    }
    ghost var o := if overdue > 0 then [Insight(Danger, High, OverdueWork(overdue))] else [];
    ghost var h := if risky > 0 then [Insight(Warning, Medium, HighRiskWork(risky))] else [];
    assert afterOverdue == insights + o;
    assert out == insights + o + h;
  }

  // ------------------------------------------------ properties of the list

  /** Picks out the insights about one KPI, or those of one scan. */
  datatype Selector = ForKpi(kpiId: string) | ForOverdue | ForHighRisk

  predicate Selects(sel: Selector, s: Subject) {
    match sel
    case ForKpi(k) => s == Kpi(k)
    case ForOverdue => s.OverdueWork?
    case ForHighRisk => s.HighRiskWork?
  }

  /** The insights the selector picks, in list order. */
  function Select(out: seq<Insight>, sel: Selector): (r: seq<Insight>)
    ensures |r| <= |out|
  {
    if |out| == 0 then []
    else Select(out[..|out| - 1], sel) + if Selects(sel, out[|out| - 1].subject) then [out[|out| - 1]] else []
  }

  /** The selection holds exactly the insights the selector picks. */
  lemma {:induction false} SelectMembers(out: seq<Insight>, sel: Selector)
    ensures forall x :: x in Select(out, sel) <==> x in out && Selects(sel, x.subject)
  {
    if |out| > 0 {
      SelectMembers(out[..|out| - 1], sel);
      assert out == out[..|out| - 1] + [out[|out| - 1]];
    }
  }

  lemma {:induction false} SelectAppend(a: seq<Insight>, b: seq<Insight>, sel: Selector)
    ensures Select(a + b, sel) == Select(a, sel) + Select(b, sel)
  {
    if |b| > 0 {
      assert (a + b)[..|a + b| - 1] == a + b[..|b| - 1];
      SelectAppend(a, b[..|b| - 1], sel);
    } else {
      assert a + b == a;
    }
  }

  /** Selecting one KPI from the KPI part gives that KPI's insights when it
      is among the ids, else nothing. */
  lemma {:induction false} SelectKpiInsights(rows: seq<KpiRow>, ids: seq<string>, k: string)
    requires forall a, b :: 0 <= a < b < |ids| ==> ids[a] != ids[b]
    ensures Select(KpiInsights(rows, ids), ForKpi(k)) == if k in ids then PerKpi(rows, k) else []
  {
    if |ids| > 0 {
      var init := ids[..|ids| - 1];
      var last := ids[|ids| - 1];
      SelectKpiInsights(rows, init, k);
      var before := KpiInsights(rows, init);
      var here := PerKpi(rows, last);
      assert KpiInsights(rows, ids) == before + here;
      PerKpiSubject(rows, last);
      SelectAppend(before, here, ForKpi(k));
      SelectAll(here, Kpi(last), ForKpi(k));
      if k == last {
        assert k !in init;
      } else {
        assert k in ids <==> k in init;
      }
    }
  }

  /** Only the KPI insights are about KPIs: the KPI part holds nothing a
      scan selector picks. */
  lemma {:induction false} KpiInsightsHoldNoScan(rows: seq<KpiRow>, ids: seq<string>, sel: Selector)
    requires !sel.ForKpi?
    ensures Select(KpiInsights(rows, ids), sel) == []
  {
    if |ids| > 0 {
      var init := ids[..|ids| - 1];
      var last := ids[|ids| - 1];
      KpiInsightsHoldNoScan(rows, init, sel);
      var before := KpiInsights(rows, init);
      var here := PerKpi(rows, last);
      assert KpiInsights(rows, ids) == before + here;
      PerKpiSubject(rows, last);
      SelectAppend(before, here, sel);
      SelectAll(here, Kpi(last), sel);
    }
  }

  /** A list whose insights all share one subject is selected whole or not at all. */
  lemma {:induction false} SelectAll(out: seq<Insight>, s: Subject, sel: Selector)
    requires forall x :: x in out ==> x.subject == s
    ensures Select(out, sel) == if Selects(sel, s) then out else []
  {
    if |out| > 0 {
      var init := out[..|out| - 1];
      var last := out[|out| - 1];
      assert out == init + [last];
      assert last.subject == s by { assert last in out; }
      forall x | x in init
        ensures x.subject == s
      {
        assert x in out;
      }
      SelectAll(init, s, sel);
      assert Select(out, sel) == Select(init, sel) + if Selects(sel, s) then [last] else [];
    }
  }

  /** The insights about a KPI are exactly those of its own rules. */
  lemma InsightsOfKpi(rows: seq<KpiRow>, items: seq<WorkItem>, todayId: int, k: string)
    ensures Select(AllInsights(rows, items, todayId), ForKpi(k)) == PerKpi(rows, k)
  {
    PerKpiSubject(rows, k);
    if rows != [] {
      var ids := KpiIds(rows);
      var kpis := KpiInsights(rows, ids);
      var scans := ScanInsights(items, todayId);
      assert AllInsights(rows, items, todayId) == kpis + scans;
      assert Select(kpis, ForKpi(k)) == PerKpi(rows, k) by {
        KpiIdsListsEachKpiOnce(rows);
        SelectKpiInsights(rows, ids, k);
        if k !in ids {
          assert forall i :: 0 <= i < |rows| ==> rows[i].kpiId != k;
        }
      }
      assert Select(scans, ForKpi(k)) == [] by {
        ScanSelection(items, todayId, k);
      }
      SelectAppend(kpis, scans, ForKpi(k));
    }
  }

  /** At most one overdue insight: a high-severity danger carrying the
      count, present exactly when the window is not empty and some open item
      is past its due date. */
  lemma OverdueInsight(rows: seq<KpiRow>, items: seq<WorkItem>, todayId: int)
    ensures Select(AllInsights(rows, items, todayId), ForOverdue)
      == if rows != [] && (exists i :: 0 <= i < |items| && IsOverdue(items[i], todayId))
         then [Insight(Danger, High, OverdueWork(CountOverdue(items, todayId)))]
         else []
  {
    if rows != [] {
      var ids := KpiIds(rows);
      KpiInsightsHoldNoScan(rows, ids, ForOverdue);
      SelectAppend(KpiInsights(rows, ids), ScanInsights(items, todayId), ForOverdue);
      ScanSelection(items, todayId, "");
    }
  }

  /** At most one high-risk insight: a medium-severity warning carrying the
      count, present exactly when the window is not empty and some open item
      is rated high risk. */
  lemma HighRiskInsight(rows: seq<KpiRow>, items: seq<WorkItem>, todayId: int)
    ensures Select(AllInsights(rows, items, todayId), ForHighRisk)
      == if rows != [] && (exists i :: 0 <= i < |items| && IsHighRisk(items[i]))
         then [Insight(Warning, Medium, HighRiskWork(CountHighRisk(items)))]
         else []
  {
    if rows != [] {
      var ids := KpiIds(rows);
      KpiInsightsHoldNoScan(rows, ids, ForHighRisk);
      SelectAppend(KpiInsights(rows, ids), ScanInsights(items, todayId), ForHighRisk);
      ScanSelection(items, todayId, "");
    }
  }

  lemma ScanSelection(items: seq<WorkItem>, todayId: int, k: string)
    ensures Select(ScanInsights(items, todayId), ForKpi(k)) == []
    ensures Select(ScanInsights(items, todayId), ForOverdue)
      == if CountOverdue(items, todayId) > 0 then [Insight(Danger, High, OverdueWork(CountOverdue(items, todayId)))] else []
    ensures Select(ScanInsights(items, todayId), ForHighRisk)
      == if CountHighRisk(items) > 0 then [Insight(Warning, Medium, HighRiskWork(CountHighRisk(items)))] else []
  {
    var o := if CountOverdue(items, todayId) > 0 then [Insight(Danger, High, OverdueWork(CountOverdue(items, todayId)))] else [];
    var h := if CountHighRisk(items) > 0 then [Insight(Warning, Medium, HighRiskWork(CountHighRisk(items)))] else [];
    assert ScanInsights(items, todayId) == o + h;
    assert Select(o + h, ForOverdue) == o by {
      SelectAppend(o, h, ForOverdue);
    }
    assert Select(o + h, ForHighRisk) == h by {
      SelectAppend(o, h, ForHighRisk);
    }
    assert Select(o + h, ForKpi(k)) == [] by {
      SelectAppend(o, h, ForKpi(k));
    }
  }

  // ------------------------------------------------ the order of the window

  /** `ORDER BY k.date_id DESC`: the window lists newer rows first. */
  predicate NewestFirst(rows: seq<KpiRow>) {
    forall i, j :: 0 <= i < j < |rows| ==> rows[i].dateId >= rows[j].dateId
  }

  /** A KPI whose value never falls as time passes (so two readings of the
      same day agree). */
  predicate NeverFalls(rows: seq<KpiRow>, kpiId: string) {
    forall r1, r2 :: r1 in rows && r2 in rows && r1.kpiId == kpiId && r2.kpiId == kpiId && r1.dateId <= r2.dateId
      ==> r1.actual <= r2.actual
  }

  /** Picking out one KPI keeps the window's newest-first order. */
  lemma {:induction false} SeriesNewestFirst(rows: seq<KpiRow>, kpiId: string)
    requires NewestFirst(rows)
    ensures NewestFirst(RowsOf(rows, kpiId))
  {
    if |rows| > 0 {
      var init := rows[..|rows| - 1];
      var last := rows[|rows| - 1];
      assert NewestFirst(init);
      SeriesNewestFirst(init, kpiId);
      if last.kpiId == kpiId {
        var earlier := RowsOf(init, kpiId);
        assert RowsOf(rows, kpiId) == earlier + [last];
        RowsOfMembers(init, kpiId);
        forall x | x in earlier
          ensures x.dateId >= last.dateId
        {
          var a :| 0 <= a < |init| && init[a] == x;
          assert rows[a] == x;
        }
      }
    }
  }

  /** The row `generate_insights` takes as latest, the first of the KPI's
      series, is a newest row of that KPI. */
  lemma LatestIsNewest(rows: seq<KpiRow>, kpiId: string)
    requires NewestFirst(rows) && RowsOf(rows, kpiId) != []
    ensures forall r :: r in rows && r.kpiId == kpiId ==> r.dateId <= RowsOf(rows, kpiId)[0].dateId
  {
    var series := RowsOf(rows, kpiId);
    SeriesNewestFirst(rows, kpiId);
    RowsOfMembers(rows, kpiId);
    forall r | r in rows && r.kpiId == kpiId
      ensures r.dateId <= series[0].dateId
    {
      assert r in series;
      var j :| 0 <= j < |series| && series[j] == r;
      if j > 0 {
        assert series[0].dateId >= series[j].dateId;
      }
    }
  }

  /** Because the series is newest first, the trend rule's trailing window
      of three holds the OLDEST readings: a positive KPI whose value never
      falls over time is never reported as growing. */
  lemma RisingKpiNeverReportedAsGrowth(rows: seq<KpiRow>, kpiId: string)
    requires NewestFirst(rows) && NeverFalls(rows, kpiId)
    requires forall r :: r in rows && r.kpiId == kpiId ==> r.actual > 0.0
    ensures Insight(Info, Medium, Kpi(kpiId)) !in PerKpi(rows, kpiId)
  {
    var series := RowsOf(rows, kpiId);
    if series != [] {
      var values := Actuals(series);
      SeriesNeverRises(rows, kpiId);
      SeriesPositive(rows, kpiId);
      NonIncreasingNeverUp(values, 3);
      var latest := series[0];
      var target := ToSeq(TargetInsight(kpiId, latest.actual, latest.target, latest.targetDirection));
      var trend := ToSeq(TrendInsight(kpiId, values));
      assert PerKpi(rows, kpiId) == target + trend;
    }
  }

  /** Read newest first, the values of a KPI that never falls over time
      never increase. */
  lemma SeriesNeverRises(rows: seq<KpiRow>, kpiId: string)
    requires NewestFirst(rows) && NeverFalls(rows, kpiId)
    ensures NonIncreasing(Actuals(RowsOf(rows, kpiId)))
  {
    var series := RowsOf(rows, kpiId);
    var values := Actuals(series);
    SeriesNewestFirst(rows, kpiId);
    RowsOfMembers(rows, kpiId);
    forall i, j | 0 <= i < j < |values|
      ensures values[i] >= values[j]
    {
      assert series[i] in rows && series[j] in rows;
      assert series[j].dateId <= series[i].dateId;
    }
  }

  /** The series of a KPI whose readings are all positive holds only
      positive values. */
  lemma SeriesPositive(rows: seq<KpiRow>, kpiId: string)
    requires forall r :: r in rows && r.kpiId == kpiId ==> r.actual > 0.0
    ensures forall i :: 0 <= i < |RowsOf(rows, kpiId)| ==> Actuals(RowsOf(rows, kpiId))[i] > 0.0
  {
    var series := RowsOf(rows, kpiId);
    RowsOfMembers(rows, kpiId);
    forall i | 0 <= i < |series|
      ensures Actuals(series)[i] > 0.0
    {
      assert series[i] in rows;
    }
  }

  /** A KPI read at 100, 110, 120, 130 and 140 on five consecutive days,
      listed newest first: the trailing window is the three oldest readings
      (mean 110) against the two newest (mean 135), so the rising KPI gets a
      falling-trend warning. */
  lemma RisingKpiReportedAsFalling()
    ensures PerKpi([KpiRow("K", 20240107, 140.0, None, HigherIsBetter),
                    KpiRow("K", 20240106, 130.0, None, HigherIsBetter),
                    KpiRow("K", 20240105, 120.0, None, HigherIsBetter),
                    KpiRow("K", 20240104, 110.0, None, HigherIsBetter),
                    KpiRow("K", 20240103, 100.0, None, HigherIsBetter)], "K")
      == [Insight(Warning, Medium, Kpi("K"))]
  {
    var rows := [KpiRow("K", 20240107, 140.0, None, HigherIsBetter),
                 KpiRow("K", 20240106, 130.0, None, HigherIsBetter),
                 KpiRow("K", 20240105, 120.0, None, HigherIsBetter),
                 KpiRow("K", 20240104, 110.0, None, HigherIsBetter),
                 KpiRow("K", 20240103, 100.0, None, HigherIsBetter)];
    RowsOfSingleKpi(rows, "K");
    var values := [140.0, 130.0, 120.0, 110.0, 100.0];
    assert Actuals(rows) == values;
    FallingSeriesIsDown();
    assert TrendInsight("K", values) == Some(Insight(Warning, Medium, Kpi("K")));
    assert PerKpi(rows, "K") == ToSeq(TrendInsight("K", values));
  }
}
