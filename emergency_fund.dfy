/**
 * The plan of the emergency-fund calculator (personal/emergency_fund.py): the
 * recommended number of months, the target, the gap still to save, the monthly
 * saving, its share of income, the badges earned, and the insights shown for a
 * stored plan. Amounts are exact reals.
 */
module EmergencyFund {
  import opened Wrappers

  /** The risk-tolerance choices of the form. */
  datatype Risk = Low | Medium | High

  /** The timeline choices of the form: '6', '12' or '18' months. */
  datatype Timeline = Six | Twelve | Eighteen

  function Months(t: Timeline): (m: int)
    ensures m == 6 || m == 12 || m == 18
  {
    match t
    case Six => 6
    case Twelve => 12
    case Eighteen => 18
  }

  /** The validated form: an optional field that was left empty is `None`. */
  datatype FundForm = FundForm(expenses: real, income: Option<real>, savings: Option<real>,
                               risk: Risk, dependents: Option<int>, timeline: Timeline)

  datatype Badge = Planner | Protector | SteadySaver | FundMaster

  /** The position of each badge in the list the handler builds. */
  function BadgeRank(b: Badge): nat {
    match b
    case Planner => 0
    case Protector => 1
    case SteadySaver => 2
    case FundMaster => 3
  }

  /** The computed fields of the plan record. */
  datatype Plan = Plan(recommendedMonths: int, target: real, gap: real, monthlySavings: real,
                       percentOfIncome: Option<real>, badges: seq<Badge>)

  /** `form.dependents.data and form.dependents.data >= 2` */
  predicate ManyDependents(dependents: Option<int>) {
    dependents.Some? && dependents.value >= 2
  }

  /** `form.current_savings.data or 0` */
  function SavingsOrZero(savings: Option<real>): real {
    savings.GetOr(0.0)
  }

  /** High risk asks for at least a year, low risk for at most six months; two or more dependents add two months. */
  function RecommendedMonths(risk: Risk, timeline: Timeline, dependents: Option<int>): (r: int)
    ensures var base := r - (if ManyDependents(dependents) then 2 else 0);
            (risk == High ==> base >= 12 && base >= Months(timeline) && (base == 12 || base == Months(timeline))) &&
            (risk == Low ==> base <= 6 && base <= Months(timeline) && (base == 6 || base == Months(timeline))) &&
            (risk == Medium ==> base == Months(timeline))
  {
    var months := Months(timeline);
    var base := if risk == High then Max(12, months) else if risk == Low then Min(6, months) else months;
    if ManyDependents(dependents) then base + 2 else base
  }

  function Max(a: int, b: int): int { if a >= b then a else b }
  function Min(a: int, b: int): int { if a <= b then a else b }

  /** Every timeline choice is at least six months, so low risk always recommends six (plus two for dependents). */
  lemma LowRiskRecommendsSix(timeline: Timeline, dependents: Option<int>)
    ensures RecommendedMonths(Low, timeline, dependents) == 6 + (if ManyDependents(dependents) then 2 else 0)
  {
  }

  /** Dependents change the recommendation by exactly two months, whatever the risk and timeline. */
  lemma DependentsAddTwoMonths(risk: Risk, timeline: Timeline, n: int)
    requires n >= 2
    ensures RecommendedMonths(risk, timeline, Some(n)) == RecommendedMonths(risk, timeline, None) + 2
  {
  }

  /** The badges, in the fixed order Planner, Protector, Steady Saver, Fund Master. */
  function Badges(timeline: Timeline, dependents: Option<int>, gap: real, savings: real, target: real): (b: seq<Badge>)
    ensures Planner in b <==> timeline == Six || timeline == Twelve
    ensures Protector in b <==> ManyDependents(dependents)
    ensures SteadySaver in b <==> gap <= 0.0
    ensures FundMaster in b <==> savings >= target
    ensures forall i, j :: 0 <= i < j < |b| ==> BadgeRank(b[i]) < BadgeRank(b[j])
  {
    (if timeline == Six || timeline == Twelve then [Planner] else [])
    + (if ManyDependents(dependents) then [Protector] else [])
    + (if gap <= 0.0 then [SteadySaver] else [])
    + (if savings >= target then [FundMaster] else [])
  }

  /** A monthly amount over a number of months. */
  function OverMonths(perMonth: real, months: int): real {
    perMonth * (months as real)
  }

  /** The saving per month that closes a positive gap over the timeline; nothing when there is no gap. */
  function MonthlySavings(gap: real, months: int): (m: real)
    requires months > 0
    ensures m >= 0.0
    ensures gap > 0.0 ==> OverMonths(m, months) == gap
    ensures gap <= 0.0 ==> m == 0.0
  {
    if gap > 0.0 then gap / months as real else 0.0
  }

  /** The monthly saving as a percentage of a positive income; `None` when the income is missing or zero. */
  function PercentOfIncome(monthly: real, income: Option<real>): (p: Option<real>)
    ensures p.Some? <==> income.Some? && income.value > 0.0
    ensures p.Some? ==> p.value * income.value == monthly * 100.0
  {
    if income.Some? && income.value > 0.0 then
      var q := monthly / income.value;
      assert q * income.value == monthly;
      Some(q * 100.0)
    else None
  }

  /** The plan a submitted form produces. */
  function PlanOf(f: FundForm): (p: Plan)
    ensures p.recommendedMonths == RecommendedMonths(f.risk, f.timeline, f.dependents)
    ensures p.gap == p.target - SavingsOrZero(f.savings)
    ensures p.monthlySavings == MonthlySavings(p.gap, Months(f.timeline))
    ensures p.percentOfIncome == PercentOfIncome(p.monthlySavings, f.income)
    ensures p.badges == Badges(f.timeline, f.dependents, p.gap, SavingsOrZero(f.savings), p.target)
  {
    var recommended := RecommendedMonths(f.risk, f.timeline, f.dependents);
    var target := OverMonths(f.expenses, recommended);
    var gap := target - SavingsOrZero(f.savings);
    var monthly := MonthlySavings(gap, Months(f.timeline));
    Plan(recommended, target, gap, monthly, PercentOfIncome(monthly, f.income),
         Badges(f.timeline, f.dependents, gap, SavingsOrZero(f.savings), target))
  }

  /** Whatever the form, the recommendation is between six months and twenty. */
  lemma RecommendedBounds(risk: Risk, timeline: Timeline, dependents: Option<int>)
    ensures 6 <= RecommendedMonths(risk, timeline, dependents) <= 20
  {
  }

  /**
   * The target is the monthly expenses times the recommended months, so for non-negative
   * expenses it lies between six and twenty months of them.
   */
  lemma PlanTarget(f: FundForm)
    ensures PlanOf(f).target == OverMonths(f.expenses, PlanOf(f).recommendedMonths)
    ensures f.expenses >= 0.0 ==> 6.0 * f.expenses <= PlanOf(f).target <= 20.0 * f.expenses
  {
    var m := RecommendedMonths(f.risk, f.timeline, f.dependents);
    RecommendedBounds(f.risk, f.timeline, f.dependents);
    TargetBetween(f.expenses, m);
  }

  /** Six to twenty months of a non-negative amount lie between six and twenty times that amount. */
  lemma TargetBetween(x: real, m: int)
    requires 6 <= m <= 20
    ensures OverMonths(x, m) == x * (m as real)
    ensures x >= 0.0 ==> 6.0 * x <= OverMonths(x, m) <= 20.0 * x
  {
    assert x >= 0.0 ==> x * ((m as real) - 6.0) >= 0.0 && x * (20.0 - m as real) >= 0.0;
  }

  /** Steady Saver (no gap) and Fund Master (savings cover the target) are earned together. */
  lemma SteadySaverIffFundMaster(f: FundForm)
    ensures var p := PlanOf(f); SteadySaver in p.badges <==> FundMaster in p.badges
  {
  }

  /** The saving over the chosen timeline closes the gap exactly, and never overshoots it. */
  lemma SavingsCloseTheGap(f: FundForm)
    ensures var p := PlanOf(f);
            OverMonths(p.monthlySavings, Months(f.timeline)) == if p.gap > 0.0 then p.gap else 0.0
  {
    var p := PlanOf(f);
    SavingsCover(p.gap, Months(f.timeline));
  }

  /** Saving `MonthlySavings` for every month of the timeline gives back the gap, or nothing when there is none. */
  lemma SavingsCover(gap: real, months: int)
    requires months > 0
    ensures OverMonths(MonthlySavings(gap, months), months) == if gap > 0.0 then gap else 0.0
  {
  }

  // ---- insights ----

  /** The stored fields the insights read; a field the record lacks reads as its default. */
  datatype FundRecord = FundRecord(savingsGap: real, timeline: int, percentOfIncome: Option<real>,
                                   dependents: int, recommendedMonths: int)

  datatype Insight =
    | FullyFunded
    | SavingsGap(gap: real, months: int)
    | HighIncomePercentage
    | LargeFamily(recommendedMonths: int)

  /** The insights for the displayed record; `None` is the empty record shown when there is none. */
  function Insights(latest: Option<FundRecord>): (r: seq<Insight>)
    ensures latest.None? ==> r == []
    ensures latest.Some? && latest.value.savingsGap <= 0.0 ==> r == [FullyFunded]
    ensures latest.Some? && latest.value.savingsGap > 0.0 ==>
      var rec := latest.value;
      |r| >= 1 && r[0] == SavingsGap(rec.savingsGap, rec.timeline) && FullyFunded !in r &&
      (HighIncomePercentage in r <==> rec.percentOfIncome.Some? && rec.percentOfIncome.value > 30.0) &&
      (LargeFamily(rec.recommendedMonths) in r <==> rec.dependents > 2) &&
      |r| == 1 + (if HighIncomePercentage in r then 1 else 0) + (if rec.dependents > 2 then 1 else 0) &&
      (HighIncomePercentage in r ==> r[1] == HighIncomePercentage) &&
      (LargeFamily(rec.recommendedMonths) in r ==> r[|r| - 1] == LargeFamily(rec.recommendedMonths))
  {
    match latest
    case None => []
    case Some(rec) =>
      if rec.savingsGap <= 0.0 then [FullyFunded]
      else
        [SavingsGap(rec.savingsGap, rec.timeline)]
        + (if rec.percentOfIncome.Some? && rec.percentOfIncome.value > 30.0 then [HighIncomePercentage] else [])
        + (if rec.dependents > 2 then [LargeFamily(rec.recommendedMonths)] else [])
  }

  /** The record the handler stores for a form and its plan. */
  function RecordOf(f: FundForm, p: Plan): FundRecord {
    FundRecord(p.gap, Months(f.timeline), p.percentOfIncome, f.dependents.GetOr(0), p.recommendedMonths)
  }

  /**
   * For a stored plan: the "fully funded" insight is shown exactly when the plan earned Fund Master,
   * and the large-family insight only for dependents who already earned Protector.
   */
  lemma InsightsAgreeWithBadges(f: FundForm)
    ensures var p := PlanOf(f);
            var ins := Insights(Some(RecordOf(f, p)));
            (ins == [FullyFunded] <==> FundMaster in p.badges) &&
            (LargeFamily(p.recommendedMonths) in ins ==> Protector in p.badges)
  {
  }
}
