/** `calculate_investment_growth`: a month-by-month simulation of contributions and
    compound interest, with a snapshot at the end of each year. */
module Investment {
  import opened Wrappers
  import opened Money

  /** A `(year, value)` pair of the yearly lists. */
  type YearPoint = (int, real)

  datatype InvestmentSummary = InvestmentSummary(
    finalBalance: real, totalContributions: real, totalInterest: real,
    yearlyBalances: seq<YearPoint>, yearlyContributions: seq<YearPoint>, yearlyInterests: seq<YearPoint>)

  function GrowthRate(annualReturn: real): real { annualReturn / 100.0 / 12.0 }

  /** The balance after month `i`: the contribution goes in first, then the month's
      interest on the new balance is added (lines 204-209). */
  function Grown(initial: real, monthly: real, r: real, i: nat): real
  {
    if i == 0 then initial
    else
      var b := Grown(initial, monthly, r, i - 1) + monthly;
      b + b * r
  }

  /** The interest earned in months 1..i. */
  function Earned(initial: real, monthly: real, r: real, i: nat): real
  {
    if i == 0 then 0.0
    else Earned(initial, monthly, r, i - 1) + (Grown(initial, monthly, r, i - 1) + monthly) * r
  }

  function Contributed(initial: real, monthly: real, i: nat): real
  {
    initial + i as real * monthly
  }

  /** The three quantities the source records each year. */
  datatype Measure = BalanceOf | ContributionsOf | InterestOf

  function Value(measure: Measure, initial: real, monthly: real, r: real, i: nat): real
  {
    match measure
    case BalanceOf => Grown(initial, monthly, r, i)
    case ContributionsOf => Contributed(initial, monthly, i)
    case InterestOf => Earned(initial, monthly, r, i)
  }

  /** The snapshots for years 1..years, taken after months 12, 24, ... */
  function Yearly(measure: Measure, initial: real, monthly: real, r: real, years: int): (points: seq<YearPoint>)
    ensures |points| == Max(years, 0)
    ensures forall k :: 0 <= k < |points| ==> points[k].0 == k + 1
  {
    seq(Max(years, 0), k requires 0 <= k => (k + 1, Value(measure, initial, monthly, r, 12 * (k + 1))))
  }

  /** One month of the loop, and whether it ends a year. */
  lemma {:induction false} MonthStep(initial: real, monthly: real, r: real, i: nat)
    requires i >= 1
    ensures var b := Grown(initial, monthly, r, i - 1) + monthly;
            && Grown(initial, monthly, r, i) == b + b * r
            && Earned(initial, monthly, r, i) == Earned(initial, monthly, r, i - 1) + b * r
            && Contributed(initial, monthly, i) == Contributed(initial, monthly, i - 1) + monthly
    ensures i % 12 == 0 ==> i / 12 == (i - 1) / 12 + 1 && 12 * (i / 12) == i
    ensures i % 12 != 0 ==> i / 12 == (i - 1) / 12
  {
  }

  /** Lines 186-217: the month-by-month loop and its yearly snapshots. */
  method Simulate(initial: real, monthly: real, monthlyRate: real, nMonths: int)
    returns (balance: real, totalContribution: real, totalInterest: real,
             balances: seq<YearPoint>, contributions: seq<YearPoint>, interests: seq<YearPoint>)
    ensures var n := Max(nMonths, 0);
            && balance == Grown(initial, monthly, monthlyRate, n)
            && totalContribution == Contributed(initial, monthly, n)
            && totalInterest == Earned(initial, monthly, monthlyRate, n)
            && |balances| == |contributions| == |interests| == n / 12
    ensures forall k :: 0 <= k < |balances| ==>
              balances[k] == (k + 1, Value(BalanceOf, initial, monthly, monthlyRate, 12 * (k + 1)))
    ensures forall k :: 0 <= k < |contributions| ==>
              contributions[k] == (k + 1, Value(ContributionsOf, initial, monthly, monthlyRate, 12 * (k + 1)))
    ensures forall k :: 0 <= k < |interests| ==>
              interests[k] == (k + 1, Value(InterestOf, initial, monthly, monthlyRate, 12 * (k + 1)))
  {
    balances, contributions, interests := [], [], [];
    balance := initial;
    totalContribution := initial;
    totalInterest := 0.0;
    var i := 1;
    while i <= nMonths
      invariant 1 <= i <= Max(nMonths, 0) + 1
      invariant balance == Grown(initial, monthly, monthlyRate, i - 1)
      invariant totalContribution == Contributed(initial, monthly, i - 1)
      invariant totalInterest == Earned(initial, monthly, monthlyRate, i - 1)
      invariant |balances| == |contributions| == |interests| == (i - 1) / 12
      invariant forall k :: 0 <= k < |balances| ==>
                  balances[k] == (k + 1, Value(BalanceOf, initial, monthly, monthlyRate, 12 * (k + 1)))
      invariant forall k :: 0 <= k < |contributions| ==>
                  contributions[k] == (k + 1, Value(ContributionsOf, initial, monthly, monthlyRate, 12 * (k + 1)))
      invariant forall k :: 0 <= k < |interests| ==>
                  interests[k] == (k + 1, Value(InterestOf, initial, monthly, monthlyRate, 12 * (k + 1)))
    {
      MonthStep(initial, monthly, monthlyRate, i);
      balance := balance + monthly;
      totalContribution := totalContribution + monthly;
      var interest := balance * monthlyRate;
      balance := balance + interest;
      totalInterest := totalInterest + interest;
      if i % 12 == 0 {
        var year := i / 12;
        balances := balances + [(year, balance)];
        contributions := contributions + [(year, totalContribution)];
        interests := interests + [(year, totalInterest)];
      }
      i := i + 1;
    }
  }

  /** What lines 186-228 return: the totals after `max(12 * years, 0)` months and the
      year-end snapshots. The calculation divides by constants only, so it cannot fail. */
  predicate IsGrowthSummary(initial: real, monthly: real, annualReturn: real, years: int,
                            summary: InvestmentSummary)
  {
    var r, n := GrowthRate(annualReturn), Max(12 * years, 0);
    && summary.finalBalance == Grown(initial, monthly, r, n)
    && summary.totalContributions == Contributed(initial, monthly, n)
    && summary.totalInterest == Earned(initial, monthly, r, n)
    && summary.yearlyBalances == Yearly(BalanceOf, initial, monthly, r, years)
    && summary.yearlyContributions == Yearly(ContributionsOf, initial, monthly, r, years)
    && summary.yearlyInterests == Yearly(InterestOf, initial, monthly, r, years)
  }

  method CalculateInvestmentGrowth(initial: real, monthly: real, annualReturn: real, years: int)
    returns (summary: InvestmentSummary)
    ensures IsGrowthSummary(initial, monthly, annualReturn, years, summary)
  {
    var monthlyRate := GrowthRate(annualReturn);
    var balance, totalContribution, totalInterest, balances, contributions, interests :=
      Simulate(initial, monthly, monthlyRate, 12 * years);
    assert Max(12 * years, 0) / 12 == Max(years, 0);
    summary := InvestmentSummary(balance, totalContribution, totalInterest, balances, contributions, interests);
  }

  /** The invariant the loop keeps: the balance is what went in plus the interest. */
  lemma {:induction false} BalanceIsContributionsPlusInterest(initial: real, monthly: real, r: real, i: nat)
    ensures Grown(initial, monthly, r, i) == Contributed(initial, monthly, i) + Earned(initial, monthly, r, i)
  {
    if i > 0 {
      BalanceIsContributionsPlusInterest(initial, monthly, r, i - 1);
    }
  }

  /** With a zero return nothing is earned and the balance is what went in. */
  lemma {:induction false} ZeroReturnEarnsNothing(initial: real, monthly: real, i: nat)
    ensures Earned(initial, monthly, 0.0, i) == 0.0
    ensures Grown(initial, monthly, 0.0, i) == initial + i as real * monthly
  {
    if i > 0 {
      ZeroReturnEarnsNothing(initial, monthly, i - 1);
    }
  }

  lemma GrowthStep(initial: real, monthly: real, r: real, g: real, p: real, g': real, p': real)
    requires r * g == r * initial * p + monthly * (p - 1.0) * (1.0 + r)
    requires g' == (g + monthly) + (g + monthly) * r && p' == (1.0 + r) * p
    ensures r * g' == r * initial * p' + monthly * (p' - 1.0) * (1.0 + r)
  {
    assert g' == (g + monthly) * (1.0 + r);
    assert r * ((g + monthly) * (1.0 + r)) == (r * g + r * monthly) * (1.0 + r);
    assert monthly * (p - 1.0) * (1.0 + r) + r * monthly == monthly * ((1.0 + r) * p - 1.0);
  }

  /** The closed form of the simulation: r·B(i) = r·P·q^i + m·(q^i − 1)·q with
      q = 1 + r, the future value of a lump sum plus contributions made at the start
      of each month. */
  lemma {:induction false} GrownClosedForm(initial: real, monthly: real, r: real, i: nat)
    ensures r * Grown(initial, monthly, r, i)
         == r * initial * Pow(1.0 + r, i) + monthly * (Pow(1.0 + r, i) - 1.0) * (1.0 + r)
  {
    if i > 0 {
      GrownClosedForm(initial, monthly, r, i - 1);
      GrowthStep(initial, monthly, r, Grown(initial, monthly, r, i - 1), Pow(1.0 + r, i - 1),
                 Grown(initial, monthly, r, i), Pow(1.0 + r, i));
    }
  }
}
