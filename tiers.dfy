/** The status colours of the dashboards and the risk-matrix scores. */
module Tiers {
  import opened Wrappers
  import opened Insights

  /** The `status_class` of a card. */
  datatype Tier = Green | Amber | Red | Blue

  /** The `create_kpi_card` status: a card without a target (missing or
      zero) is blue; otherwise the achievement ratio `value / target` is green
      from 1, amber from 0.8 and red below. The target direction is not
      consulted. */
  function KpiCardTier(value: real, target: Option<real>): (t: Tier)
    ensures t == Blue <==> target.None? || target.value == 0.0
    ensures target.Some? && target.value > 0.0 ==>
      && (t == Green <==> value >= target.value)
      && (t == Amber <==> 0.8 * target.value <= value < target.value)
      && (t == Red <==> value < 0.8 * target.value)
  {
    if target.None? || target.value == 0.0 then Blue
    else
      var ratio := value / target.value;
      assert target.value > 0.0 ==>
        (ratio >= 1.0 <==> value >= target.value) && (ratio >= 0.8 <==> value >= 0.8 * target.value) by {
        if target.value > 0.0 {
          RatioScaled(value, target.value);
        }
      }
      if ratio >= 1.0 then Green
      else if ratio >= 0.8 then Amber
      else Red
  }

  /** Against a positive target the ratio thresholds are thresholds on the
      value. */
  lemma RatioScaled(value: real, target: real)
    requires target > 0.0
    ensures value / target >= 1.0 <==> value >= target
    ensures value / target >= 0.8 <==> value >= 0.8 * target
  {
    RatioComparison(value, target, 1.0);
    RatioComparison(value, target, 0.8);
  }

  /** Against a negative target the comparison flips: the card is green when
      the value is at or below the target. */
  lemma NegativeTargetFlips(value: real, target: real)
    requires target < 0.0
    ensures KpiCardTier(value, Some(target)) == Green <==> value <= target
    ensures KpiCardTier(value, Some(target)) == Red <==> value > 0.8 * target
  {
    RatioComparison(-value, -target, 1.0);
    RatioComparison(-value, -target, 0.8);
    assert value / target == -value / -target;
  }

  /** The executive department card: the achievement is the average ratio in
      percent, 0 when the average is missing or zero; green from 100, amber
      from 80, red below. */
  function ExecutiveTier(avgAchievement: Option<real>): (t: Tier)
    ensures t != Blue
    ensures avgAchievement.None? || avgAchievement.value == 0.0 ==> t == Red
    ensures avgAchievement.Some? ==>
      && (t == Green <==> avgAchievement.value >= 1.0)
      && (t == Amber <==> 0.8 <= avgAchievement.value < 1.0)
      && (t == Red <==> avgAchievement.value < 0.8)
  {
    var achievement := if avgAchievement.Some? && avgAchievement.value != 0.0 then avgAchievement.value * 100.0 else 0.0;
    if achievement >= 100.0 then Green
    else if achievement >= 80.0 then Amber
    else Red
  }

  /** For a single KPI with a non-zero target the executive card and the KPI
      card agree. */
  lemma ExecutiveAgreesWithCard(value: real, target: real)
    requires target != 0.0
    ensures ExecutiveTier(Some(value / target)) == KpiCardTier(value, Some(target))
  {
  }

  /** For a higher-is-better KPI with a positive target and a non-zero value
      the card colour and the target insight agree: green exactly when the
      insight is a success, red exactly when it is a danger, amber exactly
      when there is none. A value of zero disagrees: the card is red, but the
      insight rule skips a zero actual. */
  lemma CardMatchesTargetInsight(kpiId: string, actual: real, target: real)
    requires target > 0.0
    ensures actual != 0.0 ==>
      && (KpiCardTier(actual, Some(target)) == Green <==>
          TargetInsight(kpiId, actual, Some(target), HigherIsBetter) == Some(Insight(Success, Low, Kpi(kpiId))))
      && (KpiCardTier(actual, Some(target)) == Red <==>
          TargetInsight(kpiId, actual, Some(target), HigherIsBetter) == Some(Insight(Danger, High, Kpi(kpiId))))
      && (KpiCardTier(actual, Some(target)) == Amber <==>
          TargetInsight(kpiId, actual, Some(target), HigherIsBetter).None?)
    ensures actual == 0.0 ==>
      KpiCardTier(actual, Some(target)) == Red && TargetInsight(kpiId, actual, Some(target), HigherIsBetter).None?
  {
  }

  /** The card ignores the direction: a lower-is-better KPI at 4 against a
      target of 8 meets its target and gets a success insight, yet its card is
      red. */
  lemma LowerIsBetterCardDisagrees()
    ensures TargetInsight("K", 4.0, Some(8.0), "lower_is_better") == Some(Insight(Success, Low, Kpi("K")))
    ensures KpiCardTier(4.0, Some(8.0)) == Red
  {
  }

  // ------------------------------------------------------ risk matrix

  /** `risk_map` with `fillna(2)`: Low 1, Medium 2, High 3, anything else
      (or NULL) 2. */
  function RiskScore(level: Option<string>): (r: nat)
    ensures 1 <= r <= 3
    ensures r == 1 <==> level == Some("Low")
    ensures r == 3 <==> level == Some("High")
  {
    if level == Some("Low") then 1
    else if level == Some("High") then 3
    else 2
  }

  /** `priority_map` with `fillna(2)`: Low 1, Medium 2, High 3, Critical 4,
      anything else (or NULL) 2. */
  function PriorityScore(priority: Option<string>): (r: nat)
    ensures 1 <= r <= 4
    ensures r == 1 <==> priority == Some("Low")
    ensures r == 3 <==> priority == Some("High")
    ensures r == 4 <==> priority == Some("Critical")
  {
    if priority == Some("Low") then 1
    else if priority == Some("High") then 3
    else if priority == Some("Critical") then 4
    else 2
  }

  /** The two scales agree on the levels they share and differ only on
      `Critical`, which the risk scale scores as unknown. */
  lemma ScoresAgreeOnSharedLevels(level: Option<string>)
    ensures level != Some("Critical") ==> RiskScore(level) == PriorityScore(level)
    ensures RiskScore(Some("Critical")) == 2 && PriorityScore(Some("Critical")) == 4
  {
  }
}
