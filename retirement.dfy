/** `calculate_retirement_needs`: closed-form future values, the 25-times-expenses
    target, and the contribution needed to close a shortfall. */
module Retirement {
  import opened Wrappers
  import opened Money
  import Investment

  datatype RetirementPlan = RetirementPlan(
    yearsToRetirement: int, yearsInRetirement: int,
    futureAnnualExpenses: real, retirementCorpusNeeded: real,
    futureValueCurrentSavings: real, futureValueContributions: real, totalFutureValue: real,
    shortfallOrSurplus: real, isSurplus: bool, requiredMonthlyContribution: real)

  const RetirementError := "Failed to calculate retirement needs"

  /** Lines 256-308. Python raises, and the source reports an error, when the inflation
      factor is zero with a negative exponent, when `1 + monthly_rate` is zero with a
      negative exponent, when the monthly rate is zero (line 274 divides by it), and when
      there is a shortfall while the growth factor `(1 + monthly_rate) ** n` is one. */
  function CalculateRetirementNeeds(currentAge: int, retirementAge: int, lifeExpectancy: int,
                                    annualExpenses: real, inflationRate: real, currentSavings: real,
                                    monthlyContribution: real, expectedReturn: real)
    : (result: Outcome<RetirementPlan>)
    ensures expectedReturn == 0.0 ==> result.Failure?
    ensures result.Failure? <==>
              || expectedReturn == 0.0
              || !PowDefined(1.0 + inflationRate / 100.0, retirementAge - currentAge)
              || !PowDefined(1.0 + expectedReturn / 100.0 / 12.0, (retirementAge - currentAge) * 12)
              || var r := expectedReturn / 100.0 / 12.0;
                 var growth := IntPow(1.0 + r, (retirementAge - currentAge) * 12);
                 && growth == 1.0
                 && Shortfall(Inflated(annualExpenses, inflationRate, retirementAge - currentAge),
                              currentSavings, monthlyContribution, r, growth) > 0.0
    ensures result.Failure? ==> result.message == RetirementError
    ensures result.Success? ==> && PowDefined(1.0 + inflationRate / 100.0, retirementAge - currentAge)
                                && PowDefined(1.0 + expectedReturn / 100.0 / 12.0, (retirementAge - currentAge) * 12)
    ensures result.Success? ==>
              var p := result.data;
              && p.yearsToRetirement == retirementAge - currentAge
              && p.yearsInRetirement == lifeExpectancy - retirementAge
              && p.futureAnnualExpenses == Inflated(annualExpenses, inflationRate, retirementAge - currentAge)
              && p.retirementCorpusNeeded == 25.0 * p.futureAnnualExpenses
              && p.totalFutureValue == p.futureValueCurrentSavings + p.futureValueContributions
              && (p.isSurplus <==> p.totalFutureValue > p.retirementCorpusNeeded)
              && p.shortfallOrSurplus == AbsReal(p.retirementCorpusNeeded - p.totalFutureValue)
              && p.shortfallOrSurplus >= 0.0
              && (p.totalFutureValue >= p.retirementCorpusNeeded ==>
                    p.requiredMonthlyContribution == monthlyContribution)
    ensures result.Success? ==>
              FromGrowth(result.data, currentSavings, monthlyContribution, expectedReturn / 100.0 / 12.0,
                         IntPow(1.0 + expectedReturn / 100.0 / 12.0, (retirementAge - currentAge) * 12))
  {
    var yearsToRetirement := retirementAge - currentAge;
    var inflation := 1.0 + inflationRate / 100.0;
    var r := expectedReturn / 100.0 / 12.0;
    var n := yearsToRetirement * 12;
    if !PowDefined(inflation, yearsToRetirement) || !PowDefined(1.0 + r, n) then Failure(RetirementError)
    else
      PlanFrom(yearsToRetirement, lifeExpectancy - retirementAge,
               Inflated(annualExpenses, inflationRate, yearsToRetirement), currentSavings,
               monthlyContribution, r, IntPow(1.0 + r, n))
  }

  /** Line 260: `annualExpenses` grown by `inflationRate` percent a year for `years` years. */
  function Inflated(annualExpenses: real, inflationRate: real, years: int): real
    requires PowDefined(1.0 + inflationRate / 100.0, years)
  {
    annualExpenses * IntPow(1.0 + inflationRate / 100.0, years)
  }

  /** Lines 264-308 once the two powers are known: `growth` is `(1 + r) ** n`. */
  function PlanFrom(yearsToRetirement: int, yearsInRetirement: int, futureAnnualExpenses: real,
                    currentSavings: real, monthlyContribution: real, r: real, growth: real)
    : (result: Outcome<RetirementPlan>)
    ensures r == 0.0 ==> result.Failure?
    ensures result.Failure? <==>
              || r == 0.0
              || (growth == 1.0
                  && Shortfall(futureAnnualExpenses, currentSavings, monthlyContribution, r, growth) > 0.0)
    ensures result.Success? ==>
              var p := result.data;
              var shortfall := p.retirementCorpusNeeded - p.totalFutureValue;
              && p.yearsToRetirement == yearsToRetirement && p.yearsInRetirement == yearsInRetirement
              && p.futureAnnualExpenses == futureAnnualExpenses
              && p.retirementCorpusNeeded == 25.0 * futureAnnualExpenses
              && (p.isSurplus <==> shortfall < 0.0)
              && p.shortfallOrSurplus == AbsReal(shortfall)
              && (shortfall <= 0.0 ==> p.requiredMonthlyContribution == monthlyContribution)
    ensures result.Success? ==>
              && result.data.totalFutureValue
                 == result.data.futureValueCurrentSavings + result.data.futureValueContributions
              && FromGrowth(result.data, currentSavings, monthlyContribution, r, growth)
  {
    if r == 0.0 then Failure(RetirementError)
    else
      PlanWith(yearsToRetirement, yearsInRetirement, futureAnnualExpenses, currentSavings * growth,
               monthlyContribution * (growth - 1.0) / r * (1.0 + r), monthlyContribution, r, growth)
  }

  /** Lines 271-285 for a monthly rate `r` and `growth` = `(1 + r) ** n`: the savings grow
      by `growth`, the contributions follow the annuity-due formula, and a shortfall raises
      the contribution by `TopUp`. */
  predicate FromGrowth(p: RetirementPlan, currentSavings: real, monthlyContribution: real, r: real, growth: real)
  {
    var shortfall := p.retirementCorpusNeeded - p.totalFutureValue;
    && r != 0.0
    && p.futureValueCurrentSavings == currentSavings * growth
    && p.futureValueContributions == monthlyContribution * (growth - 1.0) / r * (1.0 + r)
    && (shortfall > 0.0 ==>
          && growth - 1.0 != 0.0
          && p.requiredMonthlyContribution == TopUp(monthlyContribution, shortfall, r, growth))
  }

  /** Line 281: the corpus needed (line 264) minus the total future value (lines 271-278), for
      the monthly rate `r` and `growth` = `(1 + r) ** n`. */
  function Shortfall(futureAnnualExpenses: real, currentSavings: real, monthlyContribution: real,
                     r: real, growth: real): real
    requires r != 0.0
  {
    futureAnnualExpenses * 25.0
      - (currentSavings * growth + monthlyContribution * (growth - 1.0) / r * (1.0 + r))
  }

  /** Line 284: the contribution that adds `shortfall · r / (growth − 1)` to `m`. */
  function TopUp(m: real, shortfall: real, r: real, growth: real): real
    requires growth - 1.0 != 0.0
  {
    m + (shortfall * r) / (growth - 1.0)
  }

  /** Lines 266-308 once both future values are known. */
  function PlanWith(yearsToRetirement: int, yearsInRetirement: int, futureAnnualExpenses: real,
                    fromSavings: real, fromContributions: real, monthlyContribution: real,
                    r: real, growth: real)
    : (result: Outcome<RetirementPlan>)
    ensures result.Failure? <==>
              growth == 1.0 && futureAnnualExpenses * 25.0 - (fromSavings + fromContributions) > 0.0
    ensures result.Success? ==>
              var p := result.data;
              var shortfall := p.retirementCorpusNeeded - p.totalFutureValue;
              && p.yearsToRetirement == yearsToRetirement && p.yearsInRetirement == yearsInRetirement
              && p.futureAnnualExpenses == futureAnnualExpenses
              && p.retirementCorpusNeeded == 25.0 * futureAnnualExpenses
              && p.futureValueCurrentSavings == fromSavings
              && p.futureValueContributions == fromContributions
              && p.totalFutureValue == fromSavings + fromContributions
              && (p.isSurplus <==> shortfall < 0.0)
              && p.shortfallOrSurplus == AbsReal(shortfall)
              && (shortfall <= 0.0 ==> p.requiredMonthlyContribution == monthlyContribution)
              && (shortfall > 0.0 ==>
                    && growth - 1.0 != 0.0
                    && p.requiredMonthlyContribution == TopUp(monthlyContribution, shortfall, r, growth))
  {
    var corpus := futureAnnualExpenses * 25.0;
    var total := fromSavings + fromContributions;
    var shortfall := corpus - total;
    if shortfall > 0.0 && growth - 1.0 == 0.0 then Failure(RetirementError)
    else
      var required := if shortfall > 0.0 then TopUp(monthlyContribution, shortfall, r, growth)
                      else monthlyContribution;
      Success(RetirementPlan(yearsToRetirement, yearsInRetirement, futureAnnualExpenses, corpus,
                             fromSavings, fromContributions, total,
                             if shortfall < 0.0 then -shortfall else shortfall, shortfall < 0.0,
                             required))
  }

  /** At the retirement age itself `(1 + r) ** 0` is one, so any shortfall divides by zero at
      line 284 and the calculation fails. */
  lemma SameAgeShortfallFails(age: int, lifeExpectancy: int, annualExpenses: real, inflationRate: real,
                              currentSavings: real, monthlyContribution: real, expectedReturn: real)
    requires expectedReturn != 0.0 && 25.0 * annualExpenses > currentSavings
    ensures CalculateRetirementNeeds(age, age, lifeExpectancy, annualExpenses, inflationRate, currentSavings,
                                     monthlyContribution, expectedReturn).Failure?
  {
    assert IntPow(1.0 + expectedReturn / 100.0 / 12.0, 0) == 1.0;
    assert Inflated(annualExpenses, inflationRate, 0) == annualExpenses;
  }

  lemma PositiveOverPositive(a: real, d: real)
    requires a > 0.0 && d > 0.0
    ensures a / d > 0.0
  {
  }

  /** With a positive return and at least one year to go the plan always succeeds, and
      a shortfall asks for strictly more than the current monthly contribution. */
  lemma {:induction false} ShortfallRaisesContribution(currentAge: int, retirementAge: int, lifeExpectancy: int,
                                    annualExpenses: real, inflationRate: real, currentSavings: real,
                                    monthlyContribution: real, expectedReturn: real)
    requires expectedReturn > 0.0 && retirementAge > currentAge
    ensures var result := CalculateRetirementNeeds(currentAge, retirementAge, lifeExpectancy, annualExpenses,
                                                   inflationRate, currentSavings, monthlyContribution, expectedReturn);
            && result.Success?
            && (result.data.totalFutureValue < result.data.retirementCorpusNeeded ==>
                  result.data.requiredMonthlyContribution > monthlyContribution)
  {
    var r := expectedReturn / 100.0 / 12.0;
    var n := (retirementAge - currentAge) * 12;
    PowAtLeastOne(1.0 + r, n);
    var result := CalculateRetirementNeeds(currentAge, retirementAge, lifeExpectancy, annualExpenses,
                                           inflationRate, currentSavings, monthlyContribution, expectedReturn);
    var growth := Pow(1.0 + r, n);
    if result.data.totalFutureValue < result.data.retirementCorpusNeeded {
      var shortfall := result.data.retirementCorpusNeeded - result.data.totalFutureValue;
      assert shortfall * r > 0.0;
      PositiveOverPositive(shortfall * r, growth - 1.0);
    }
  }

  /** The calculation once both powers are defined. */
  lemma {:induction false} CalculateIsPlan(currentAge: int, retirementAge: int, lifeExpectancy: int,
                        annualExpenses: real, inflationRate: real, currentSavings: real,
                        monthlyContribution: real, expectedReturn: real)
    requires PowDefined(1.0 + inflationRate / 100.0, retirementAge - currentAge)
    requires PowDefined(1.0 + expectedReturn / 100.0 / 12.0, (retirementAge - currentAge) * 12)
    ensures CalculateRetirementNeeds(currentAge, retirementAge, lifeExpectancy, annualExpenses,
                                     inflationRate, currentSavings, monthlyContribution, expectedReturn)
         == PlanFrom(retirementAge - currentAge, lifeExpectancy - retirementAge,
                     annualExpenses * IntPow(1.0 + inflationRate / 100.0, retirementAge - currentAge),
                     currentSavings, monthlyContribution, expectedReturn / 100.0 / 12.0,
                     IntPow(1.0 + expectedReturn / 100.0 / 12.0, (retirementAge - currentAge) * 12))
  {
  }

  /** Contributing the required amount meets the target: the future value then exceeds
      the corpus by exactly `shortfall · r`, because line 274 credits each contribution
      with one month more interest than line 284 assumes. */
  lemma {:induction false} RequiredContributionMeetsTarget(yearsToRetirement: int, yearsInRetirement: int,
                                        futureAnnualExpenses: real, currentSavings: real,
                                        monthlyContribution: real, r: real, growth: real)
    requires var result := PlanFrom(yearsToRetirement, yearsInRetirement, futureAnnualExpenses,
                                    currentSavings, monthlyContribution, r, growth);
             result.Success? && result.data.totalFutureValue < result.data.retirementCorpusNeeded
    ensures var p := PlanFrom(yearsToRetirement, yearsInRetirement, futureAnnualExpenses,
                              currentSavings, monthlyContribution, r, growth).data;
            p.futureValueCurrentSavings + p.requiredMonthlyContribution * (growth - 1.0) / r * (1.0 + r)
              == p.retirementCorpusNeeded + (p.retirementCorpusNeeded - p.totalFutureValue) * r
  {
    var result := PlanFrom(yearsToRetirement, yearsInRetirement, futureAnnualExpenses,
                           currentSavings, monthlyContribution, r, growth);
    MeetsTarget(result.data, currentSavings, monthlyContribution, r, growth);
  }

  lemma MeetsTarget(p: RetirementPlan, s: real, m: real, r: real, growth: real)
    requires FromGrowth(p, s, m, r, growth) && p.totalFutureValue < p.retirementCorpusNeeded
    requires p.totalFutureValue == p.futureValueCurrentSavings + p.futureValueContributions
    ensures p.futureValueCurrentSavings + p.requiredMonthlyContribution * (growth - 1.0) / r * (1.0 + r)
         == p.retirementCorpusNeeded + (p.retirementCorpusNeeded - p.totalFutureValue) * r
  {
    TopUpProduct(m, p.retirementCorpusNeeded - p.totalFutureValue, r, growth);
    ExtraContribution(m, p.requiredMonthlyContribution, p.retirementCorpusNeeded, p.totalFutureValue, r, growth);
  }

  /** The raise `TopUp` adds, times `growth − 1`, is the shortfall times the rate. */
  lemma TopUpProduct(m: real, shortfall: real, r: real, growth: real)
    requires growth - 1.0 != 0.0
    ensures (TopUp(m, shortfall, r, growth) - m) * (growth - 1.0) == shortfall * r
  {
  }

  /** The extra contribution earns the shortfall, grown by one month. */
  lemma ExtraContribution(m: real, required: real, corpus: real, total: real, r: real, growth: real)
    requires r != 0.0 && (required - m) * (growth - 1.0) == (corpus - total) * r
    ensures required * (growth - 1.0) / r * (1.0 + r)
         == m * (growth - 1.0) / r * (1.0 + r) + (corpus - total) * (1.0 + r)
    ensures (corpus - total) * (1.0 + r) == (corpus - total) + (corpus - total) * r
  {
    assert required * (growth - 1.0) == m * (growth - 1.0) + (corpus - total) * r;
    assert (m * (growth - 1.0) + (corpus - total) * r) / r == m * (growth - 1.0) / r + (corpus - total);
  }

  /** The closed-form future value of lines 271-277 is what the month-by-month
      simulation of `calculate_investment_growth` reaches with the same inputs. */
  lemma {:induction false} FutureValueMatchesSimulation(currentAge: int, retirementAge: int, lifeExpectancy: int,
                                     annualExpenses: real, inflationRate: real, currentSavings: real,
                                     monthlyContribution: real, expectedReturn: real)
    requires retirementAge >= currentAge
    requires CalculateRetirementNeeds(currentAge, retirementAge, lifeExpectancy, annualExpenses,
                                      inflationRate, currentSavings, monthlyContribution, expectedReturn).Success?
    ensures CalculateRetirementNeeds(currentAge, retirementAge, lifeExpectancy, annualExpenses,
                                     inflationRate, currentSavings, monthlyContribution, expectedReturn).data.totalFutureValue
         == Investment.Grown(currentSavings, monthlyContribution, Investment.GrowthRate(expectedReturn),
                             (retirementAge - currentAge) * 12)
  {
    CalculateIsPlan(currentAge, retirementAge, lifeExpectancy, annualExpenses,
                    inflationRate, currentSavings, monthlyContribution, expectedReturn);
    PlanReachesSimulation(retirementAge - currentAge, lifeExpectancy - retirementAge,
                          annualExpenses * IntPow(1.0 + inflationRate / 100.0, retirementAge - currentAge),
                          currentSavings, monthlyContribution, expectedReturn / 100.0 / 12.0,
                          (retirementAge - currentAge) * 12,
                          IntPow(1.0 + expectedReturn / 100.0 / 12.0, (retirementAge - currentAge) * 12));
  }

  lemma {:induction false} PlanReachesSimulation(yearsToRetirement: int, yearsInRetirement: int,
                              futureAnnualExpenses: real, currentSavings: real,
                              monthlyContribution: real, r: real, n: nat, growth: real)
    requires growth == Pow(1.0 + r, n)
    requires PlanFrom(yearsToRetirement, yearsInRetirement, futureAnnualExpenses,
                      currentSavings, monthlyContribution, r, growth).Success?
    ensures PlanFrom(yearsToRetirement, yearsInRetirement, futureAnnualExpenses,
                     currentSavings, monthlyContribution, r, growth).data.totalFutureValue
         == Investment.Grown(currentSavings, monthlyContribution, r, n)
  {
    PlanTotal(yearsToRetirement, yearsInRetirement, futureAnnualExpenses,
              currentSavings, monthlyContribution, r, growth);
    SimulationValue(currentSavings, monthlyContribution, r, n);
  }

  /** Lines 271-277: savings and contributions grown to retirement. */
  function FutureValue(s: real, m: real, r: real, growth: real): real
    requires r != 0.0
  {
    s * growth + m * (growth - 1.0) / r * (1.0 + r)
  }

  /** The total of a plan that succeeds, in terms of its inputs. */
  lemma {:induction false} PlanTotal(yearsToRetirement: int, yearsInRetirement: int, futureAnnualExpenses: real,
                  currentSavings: real, monthlyContribution: real, r: real, growth: real)
    requires PlanFrom(yearsToRetirement, yearsInRetirement, futureAnnualExpenses,
                      currentSavings, monthlyContribution, r, growth).Success?
    ensures r != 0.0
    ensures PlanFrom(yearsToRetirement, yearsInRetirement, futureAnnualExpenses,
                     currentSavings, monthlyContribution, r, growth).data.totalFutureValue
         == FutureValue(currentSavings, monthlyContribution, r, growth)
  {
  }

  /** The simulated balance, divided out of the closed form. */
  lemma {:induction false} SimulationValue(s: real, m: real, r: real, n: nat)
    requires r != 0.0
    ensures Investment.Grown(s, m, r, n) == FutureValue(s, m, r, Pow(1.0 + r, n))
  {
    Investment.GrownClosedForm(s, m, r, n);
    ClosedFormValue(Investment.Grown(s, m, r, n), s, m, r, Pow(1.0 + r, n));
  }

  lemma ClosedFormValue(g: real, s: real, m: real, r: real, growth: real)
    requires r != 0.0 && r * g == r * s * growth + m * (growth - 1.0) * (1.0 + r)
    ensures g == FutureValue(s, m, r, growth)
  {
    DivideClosedForm(g, s, m, r, growth);
  }

  lemma DivideClosedForm(g: real, s: real, m: real, r: real, growth: real)
    requires r != 0.0 && r * g == r * s * growth + m * (growth - 1.0) * (1.0 + r)
    ensures g == s * growth + m * (growth - 1.0) / r * (1.0 + r)
  {
    assert m * (growth - 1.0) / r * (1.0 + r) == (m * (growth - 1.0) * (1.0 + r)) / r;
  }
}
