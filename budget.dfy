/** `analyze_budget`: totals, per-category shares, the 50/30/20 assessment, the top
    three expenses and the improvement suggestions. */
module Budget {
  import opened Wrappers
  import opened Json

  /** A `(category, amount)` pair of `expenses_dict.items()`. */
  type Expense = (string, real)

  /** The items of the expenses dict when every value is a number; `sum` raises
      TypeError on anything else (`float` treats booleans as 0 and 1, as here). */
  function Items(members: seq<(string, Json)>): (r: Option<seq<Expense>>)
    ensures r.Some? ==> |r.value| == |members|
    ensures r.Some? ==> forall i :: 0 <= i < |members| ==>
              r.value[i].0 == members[i].0 && ToFloat(members[i].1) == Some(r.value[i].1)
    ensures r.None? ==> exists i :: 0 <= i < |members| && ToFloat(members[i].1).None?
  {
    if members == [] then Some([])
    else
      match (ToFloat(members[0].1), Items(members[1..]))
      case (Some(x), Some(rest)) => Some([(members[0].0, x)] + rest)
      case (None, _) => None
      case (_, None) => assert forall i :: 0 <= i < |members| - 1 ==> members[1..][i] == members[i + 1]; None
  }

  /** `expenses_dict.items()`, or `None` when `analyze_budget` would raise: the value
      is not a dict, or one of its values is not a number. */
  function ExpenseItems(expenses: Json): Option<seq<Expense>>
  {
    match expenses
    case JObj(members) => Items(members)
    case _ => None
  }

  /** `sum(expenses_dict.values())`. */
  function Sum(items: seq<Expense>): real
  {
    if items == [] then 0.0 else items[0].1 + Sum(items[1..])
  }

  /** `(amount / income) * 100 if income > 0 else 0`. */
  function Percent(amount: real, income: real): (p: real)
    ensures income > 0.0 ==> p * income == amount * 100.0
    ensures income <= 0.0 ==> p == 0.0
  {
    if income > 0.0 then (amount / income) * 100.0 else 0.0
  }

  /** Line 327: every category with its share of the income, in the dict's order. */
  function CategoryPercentages(items: seq<Expense>, income: real): (shares: seq<(string, real)>)
    ensures |shares| == |items|
    ensures forall i :: 0 <= i < |items| ==> shares[i].0 == items[i].0
    ensures forall i :: 0 <= i < |items| ==> shares[i].1 == Percent(items[i].1, income)
  {
    seq(|items|, i requires 0 <= i < |items| => (items[i].0, Percent(items[i].1, income)))
  }

  const NeedsCategories: seq<string> :=
    ["housing", "utilities", "groceries", "healthcare", "insurance", "transportation"]
  const WantsCategories: seq<string> :=
    ["entertainment", "dining", "shopping", "hobbies", "subscriptions", "travel"]
  const SavingsCategories: seq<string> := ["savings", "investments", "debt_payment"]

  /** `expenses_dict.get(cat, 0)`. */
  function AmountOf(items: seq<Expense>, category: string): real
  {
    if items == [] then 0.0
    else if items[0].0 == category then items[0].1
    else AmountOf(items[1..], category)
  }

  /** Lines 338-340: the sum of the amounts of the bucket's categories that occur. */
  function BucketTotal(items: seq<Expense>, bucket: seq<string>): real
  {
    if bucket == [] then 0.0 else AmountOf(items, bucket[0]) + BucketTotal(items, bucket[1..])
  }

  datatype RuleLine = RuleLine(actual: real, recommended: real, difference: real)

  datatype RuleAssessment = RuleAssessment(needs: RuleLine, wants: RuleLine, savingsDebt: RuleLine)

  function Line(actual: real, recommended: real): (line: RuleLine)
    ensures line.actual == actual && line.recommended == recommended
    ensures line.difference == line.actual - line.recommended
  {
    RuleLine(actual, recommended, actual - recommended)
  }

  /** Lines 338-363: the three buckets as shares of income against 50, 30 and 20; the
      savings line counts what is left of the income as saved. */
  function Assess(items: seq<Expense>, income: real): (a: RuleAssessment)
    ensures a.needs.recommended == 50.0 && a.wants.recommended == 30.0 && a.savingsDebt.recommended == 20.0
    ensures && a.needs.difference == a.needs.actual - 50.0
            && a.wants.difference == a.wants.actual - 30.0
            && a.savingsDebt.difference == a.savingsDebt.actual - 20.0
    ensures income > 0.0 ==>
              && a.needs.actual * income == BucketTotal(items, NeedsCategories) * 100.0
              && a.wants.actual * income == BucketTotal(items, WantsCategories) * 100.0
              && a.savingsDebt.actual * income
                 == (BucketTotal(items, SavingsCategories) + income - Sum(items)) * 100.0
    ensures income <= 0.0 ==> a.needs.actual == 0.0 && a.wants.actual == 0.0 && a.savingsDebt.actual == 0.0
  {
    var savings := income - Sum(items);
    RuleAssessment(Line(Percent(BucketTotal(items, NeedsCategories), income), 50.0),
                   Line(Percent(BucketTotal(items, WantsCategories), income), 30.0),
                   Line(Percent(BucketTotal(items, SavingsCategories) + savings, income), 20.0))
  }

  // ---------------------------------------------------------------- suggestions

  /** The four suggestions; `Text` gives the wording the source appends. */
  datatype Advice = Overspending | HighNeeds | HighWants | LowSavings

  function Text(advice: Advice): string
  {
    match advice
    case Overspending => "Your expenses exceed your income. Consider reducing expenses or increasing income."
    case HighNeeds => "Your essential expenses are higher than recommended. Consider finding ways to reduce housing, transportation, or other necessary costs."
    case HighWants => "Your discretionary spending is higher than recommended. Consider cutting back on entertainment, dining out, or other non-essential expenses."
    case LowSavings => "You're saving less than recommended. Aim to increase your savings rate to at least 20% of your income."
  }

  /** The items whose flag is set, in their order. */
  function Selected<T>(flags: seq<bool>, items: seq<T>): (chosen: seq<T>)
    requires |flags| == |items|
    ensures |chosen| <= |items|
  {
    if flags == [] then []
    else (if flags[0] then [items[0]] else []) + Selected(flags[1..], items[1..])
  }

  lemma SelectedFour<T>(a: bool, b: bool, c: bool, d: bool, w: T, x: T, y: T, z: T)
    ensures Selected([a, b, c, d], [w, x, y, z])
         == (if a then [w] else []) + (if b then [x] else []) + (if c then [y] else []) + (if d then [z] else [])
  {
    assert [a, b, c, d][1..] == [b, c, d] && [w, x, y, z][1..] == [x, y, z];
    assert [b, c, d][1..] == [c, d] && [x, y, z][1..] == [y, z];
    assert [c, d][1..] == [d] && [y, z][1..] == [z];
    var sd := (if d then [z] else []);
    assert Selected([d], [z]) == sd + Selected([d][1..], [z][1..]);
    assert Selected([d], [z]) == sd;
    var s3 := Selected([c, d], [y, z]);
    assert s3 == (if c then [y] else []) + sd;
    var s2 := Selected([b, c, d], [x, y, z]);
    assert s2 == (if b then [x] else []) + s3;
    assert Selected([a, b, c, d], [w, x, y, z]) == (if a then [w] else []) + s2;
  }

  /** Lines 366-380: the checks in their fixed order. */
  method Suggest(savings: real, needs: real, wants: real, savingsDebt: real) returns (suggestions: seq<Advice>)
    ensures suggestions == Selected([savings < 0.0, needs > 50.0, wants > 30.0, savingsDebt < 20.0],
                                    [Overspending, HighNeeds, HighWants, LowSavings])
    ensures (Overspending in suggestions <==> savings < 0.0) && (HighNeeds in suggestions <==> needs > 50.0)
    ensures (HighWants in suggestions <==> wants > 30.0) && (LowSavings in suggestions <==> savingsDebt < 20.0)
    ensures savings < 0.0 <==> suggestions != [] && suggestions[0] == Overspending
  {
    suggestions := [];
    if savings < 0.0 {
      suggestions := suggestions + [Overspending];
    }
    if needs > 50.0 {
      suggestions := suggestions + [HighNeeds];
    }
    if wants > 30.0 {
      suggestions := suggestions + [HighWants];
    }
    if savingsDebt < 20.0 {
      suggestions := suggestions + [LowSavings];
    }
    SelectedFour(savings < 0.0, needs > 50.0, wants > 30.0, savingsDebt < 20.0,
                 Overspending, HighNeeds, HighWants, LowSavings);
  }

  // ---------------------------------------------------------------- top expenses

  predicate SortedDesc(s: seq<Expense>)
  {
    forall i, j :: 0 <= i < j < |s| ==> s[i].1 >= s[j].1
  }

  /** Places `x` after every item whose amount is at least its own. */
  function Insert(x: Expense, s: seq<Expense>): (r: seq<Expense>)
    ensures |r| == |s| + 1
  {
    if s == [] then [x]
    else if s[0].1 >= x.1 then [s[0]] + Insert(x, s[1..])
    else [x] + s
  }

  lemma {:induction false} InsertPermutes(x: Expense, s: seq<Expense>)
    ensures multiset(Insert(x, s)) == multiset(s) + multiset{x}
  {
    if s != [] && s[0].1 >= x.1 {
      InsertPermutes(x, s[1..]);
      assert s == [s[0]] + s[1..];
    }
  }

  lemma {:induction false} InsertSorted(x: Expense, s: seq<Expense>)
    requires SortedDesc(s)
    ensures SortedDesc(Insert(x, s))
  {
    if s != [] && s[0].1 >= x.1 {
      var rest := Insert(x, s[1..]);
      InsertSorted(x, s[1..]);
      InsertPermutes(x, s[1..]);
      forall k | 0 <= k < |rest| ensures s[0].1 >= rest[k].1 {
        assert rest[k] in multiset(rest);
        if rest[k] != x {
          assert rest[k] in multiset(s[1..]);
          var j :| 0 <= j < |s[1..]| && s[1..][j] == rest[k];
          assert s[j + 1] == rest[k];
        }
      }
    }
  }

  /** `sorted(expenses_dict.items(), key=lambda x: x[1], reverse=True)`: descending by
      amount; Python's sort is stable, so equal amounts keep their dict order. */
  function SortDesc(items: seq<Expense>): (r: seq<Expense>)
    ensures |r| == |items|
  {
    if items == [] then []
    else Insert(items[|items| - 1], SortDesc(items[..|items| - 1]))
  }

  /** The sort orders by amount and only reorders. */
  lemma {:induction false} SortDescSortsAndPermutes(items: seq<Expense>)
    ensures SortedDesc(SortDesc(items))
    ensures multiset(SortDesc(items)) == multiset(items)
  {
    SortDescSorted(items);
    SortDescPermutes(items);
  }

  lemma {:induction false} SortDescSorted(items: seq<Expense>)
    ensures SortedDesc(SortDesc(items))
  {
    if items != [] {
      SortDescSorted(items[..|items| - 1]);
      InsertSorted(items[|items| - 1], SortDesc(items[..|items| - 1]));
    }
  }

  lemma {:induction false} SortDescPermutes(items: seq<Expense>)
    ensures multiset(SortDesc(items)) == multiset(items)
  {
    if items != [] {
      var init, last := items[..|items| - 1], items[|items| - 1];
      SortDescPermutes(init);
      InsertPermutes(last, SortDesc(init));
      assert items == init + [last];
    }
  }

  /** The items of amount `v`, in order. */
  function WithAmount(s: seq<Expense>, v: real): seq<Expense>
  {
    if s == [] then [] else (if s[0].1 == v then [s[0]] else []) + WithAmount(s[1..], v)
  }

  lemma {:induction false} WithAmountAppend(a: seq<Expense>, b: seq<Expense>, v: real)
    ensures WithAmount(a + b, v) == WithAmount(a, v) + WithAmount(b, v)
  {
    if a == [] {
      assert a + b == b;
    } else {
      assert (a + b)[1..] == a[1..] + b;
      WithAmountAppend(a[1..], b, v);
      var head := if a[0].1 == v then [a[0]] else [];
      assert WithAmount(a + b, v) == head + WithAmount(a[1..] + b, v);
      assert head + (WithAmount(a[1..], v) + WithAmount(b, v)) == (head + WithAmount(a[1..], v)) + WithAmount(b, v);
    }
  }

  lemma {:induction false} WithAmountNone(s: seq<Expense>, v: real)
    requires forall k :: 0 <= k < |s| ==> s[k].1 < v
    ensures WithAmount(s, v) == []
  {
    if s != [] {
      WithAmountNone(s[1..], v);
    }
  }

  lemma {:induction false} InsertStable(x: Expense, s: seq<Expense>, v: real)
    requires SortedDesc(s)
    ensures WithAmount(Insert(x, s), v) == WithAmount(s, v) + (if x.1 == v then [x] else [])
  {
    if s == [] {
    } else if s[0].1 >= x.1 {
      InsertStable(x, s[1..], v);
      var head := if s[0].1 == v then [s[0]] else [];
      var tail := if x.1 == v then [x] else [];
      assert WithAmount(Insert(x, s), v) == head + WithAmount(Insert(x, s[1..]), v);
      assert head + (WithAmount(s[1..], v) + tail) == (head + WithAmount(s[1..], v)) + tail;
    } else {
      if x.1 == v {
        WithAmountNone(s, v);
      }
    }
  }

  /** The sort is stable: for every amount, the items of that amount come out in the
      order they went in. */
  lemma {:induction false} SortDescStable(items: seq<Expense>, v: real)
    ensures WithAmount(SortDesc(items), v) == WithAmount(items, v)
  {
    if items != [] {
      var init, last := items[..|items| - 1], items[|items| - 1];
      SortDescStable(init, v);
      SortDescSorted(init);
      InsertStable(last, SortDesc(init), v);
      assert items == init + [last];
      WithAmountAppend(init, [last], v);
      WithAmountSingle(last, v);
    }
  }

  lemma WithAmountSingle(x: Expense, v: real)
    ensures WithAmount([x], v) == if x.1 == v then [x] else []
  {
    assert [x][1..] == [];
  }

  // ---------------------------------------------------------------- the analysis

  datatype BudgetReport = BudgetReport(
    income: real, totalExpenses: real, savings: real, savingsRate: real,
    categoryPercentages: seq<(string, real)>, ruleAssessment: RuleAssessment,
    topExpenses: seq<Expense>, suggestions: seq<Advice>)

  /** What lines 321-397 return: the error exactly when the expenses are not all
      numbers, otherwise the totals, the shares, the 50/30/20 lines, the three largest
      expenses and the suggestions. */
  predicate IsBudgetOutcome(income: real, expenses: Json, result: Outcome<BudgetReport>)
  {
    && (ExpenseItems(expenses).None? <==> result.Failure?)
    && (result.Failure? ==> result.message == "Failed to analyze budget")
    && (result.Success? ==>
          var items, report := ExpenseItems(expenses).value, result.data;
          && report.income == income
          && report.totalExpenses == Sum(items)
          && report.savings == income - report.totalExpenses
          && report.savingsRate == Percent(report.savings, income)
          && report.categoryPercentages == CategoryPercentages(items, income)
          && report.ruleAssessment == Assess(items, income)
          && report.topExpenses == SortDesc(items)[..Min(3, |items|)]
          && report.suggestions
             == Selected([report.savings < 0.0, report.ruleAssessment.needs.actual > 50.0,
                          report.ruleAssessment.wants.actual > 30.0,
                          report.ruleAssessment.savingsDebt.actual < 20.0],
                         [Overspending, HighNeeds, HighWants, LowSavings]))
  }

  method AnalyzeBudget(income: real, expenses: Json) returns (result: Outcome<BudgetReport>)
    ensures IsBudgetOutcome(income, expenses, result)
  {
    var parsed := ExpenseItems(expenses);
    if parsed.None? {
      return Failure("Failed to analyze budget");
    }
    var items := parsed.value;
    var totalExpenses := Sum(items);
    var savings := income - totalExpenses;
    var assessment := Assess(items, income);
    var suggestions := Suggest(savings, assessment.needs.actual, assessment.wants.actual,
                               assessment.savingsDebt.actual);
    var sorted := SortDesc(items);
    result := Success(BudgetReport(income, totalExpenses, savings, Percent(savings, income),
                                   CategoryPercentages(items, income), assessment,
                                   sorted[..Min(3, |items|)], suggestions));
  }

  // ---------------------------------------------------------------- bucket shares

  predicate DistinctKeys(items: seq<Expense>)
  {
    forall i, j :: 0 <= i < j < |items| ==> items[i].0 != items[j].0
  }

  /** The amounts of the categories in `keys`. */
  function SumIn(items: seq<Expense>, keys: set<string>): real
  {
    if items == [] then 0.0 else (if items[0].0 in keys then items[0].1 else 0.0) + SumIn(items[1..], keys)
  }

  /** The amounts of the categories outside `keys`. */
  function SumOut(items: seq<Expense>, keys: set<string>): real
  {
    if items == [] then 0.0 else (if items[0].0 in keys then 0.0 else items[0].1) + SumOut(items[1..], keys)
  }

  lemma {:induction false} SumSplits(items: seq<Expense>, keys: set<string>)
    ensures Sum(items) == SumIn(items, keys) + SumOut(items, keys)
  {
    if items != [] {
      SumSplits(items[1..], keys);
    }
  }

  lemma {:induction false} SumInUnion(items: seq<Expense>, a: set<string>, b: set<string>)
    requires a !! b
    ensures SumIn(items, a + b) == SumIn(items, a) + SumIn(items, b)
  {
    if items != [] {
      SumInUnion(items[1..], a, b);
    }
  }

  lemma {:induction false} SumInSingle(items: seq<Expense>, category: string)
    requires DistinctKeys(items)
    ensures SumIn(items, {category}) == AmountOf(items, category)
  {
    if items != [] {
      SumInSingle(items[1..], category);
      if items[0].0 == category {
        SumInNone(items[1..], category);
      }
    }
  }

  lemma {:induction false} SumInNone(items: seq<Expense>, category: string)
    requires forall k :: 0 <= k < |items| ==> items[k].0 != category
    ensures SumIn(items, {category}) == 0.0
  {
    if items != [] {
      SumInNone(items[1..], category);
    }
  }

  lemma {:induction false} SumInEmpty(items: seq<Expense>)
    ensures SumIn(items, {}) == 0.0
  {
    if items != [] {
      SumInEmpty(items[1..]);
    }
  }

  /** With distinct categories on both sides, a bucket's total is the sum of the
      amounts whose category is in the bucket. */
  lemma {:induction false} BucketTotalIsSumIn(items: seq<Expense>, bucket: seq<string>)
    requires DistinctKeys(items)
    requires forall i, j :: 0 <= i < j < |bucket| ==> bucket[i] != bucket[j]
    ensures BucketTotal(items, bucket) == SumIn(items, set c | c in bucket)
  {
    if bucket == [] {
      assert (set c | c in bucket) == {};
      SumInEmpty(items);
    } else {
      var rest := set c | c in bucket[1..];
      BucketTotalIsSumIn(items, bucket[1..]);
      SumInSingle(items, bucket[0]);
      assert (set c | c in bucket) == {bucket[0]} + rest;
      assert bucket[0] !in rest;
      SumInUnion(items, {bucket[0]}, rest);
    }
  }

  /** Every category the three buckets name. */
  function Bucketed(): set<string>
  {
    (set c | c in NeedsCategories) + (set c | c in WantsCategories) + (set c | c in SavingsCategories)
  }

  lemma BucketsDisjoint()
    ensures (set c | c in NeedsCategories) !! (set c | c in WantsCategories)
    ensures (set c | c in NeedsCategories) + (set c | c in WantsCategories) !! (set c | c in SavingsCategories)
    ensures forall i, j :: 0 <= i < j < |NeedsCategories| ==> NeedsCategories[i] != NeedsCategories[j]
    ensures forall i, j :: 0 <= i < j < |WantsCategories| ==> WantsCategories[i] != WantsCategories[j]
    ensures forall i, j :: 0 <= i < j < |SavingsCategories| ==> SavingsCategories[i] != SavingsCategories[j]
  {
  }

  /** With a positive income the three bucket shares add up to 100 less the share of
      the categories no bucket names (bucket names match case-sensitively). */
  lemma {:induction false} SharesAddUp(items: seq<Expense>, income: real)
    requires DistinctKeys(items) && income > 0.0
    ensures var a := Assess(items, income);
            a.needs.actual + a.wants.actual + a.savingsDebt.actual
              == 100.0 - Percent(SumOut(items, Bucketed()), income)
  {
    BucketsDisjoint();
    var n, w, v := set c | c in NeedsCategories, set c | c in WantsCategories, set c | c in SavingsCategories;
    BucketTotalIsSumIn(items, NeedsCategories);
    BucketTotalIsSumIn(items, WantsCategories);
    BucketTotalIsSumIn(items, SavingsCategories);
    SumInUnion(items, n, w);
    SumInUnion(items, n + w, v);
    SumSplits(items, Bucketed());
    var nt, wt, vt := SumIn(items, n), SumIn(items, w), SumIn(items, v);
    var out := SumOut(items, Bucketed());
    ShareSum(nt, wt, vt, out, income, Sum(items));
  }

  lemma ShareSum(nt: real, wt: real, vt: real, out: real, income: real, total: real)
    requires income > 0.0 && total == nt + wt + vt + out
    ensures Percent(nt, income) + Percent(wt, income) + Percent(vt + (income - total), income)
         == 100.0 - Percent(out, income)
  {
    var savings := income - total;
    var lhs := Percent(nt, income) + Percent(wt, income) + Percent(vt + savings, income);
    var rhs := 100.0 - Percent(out, income);
    assert lhs * income == (nt + wt + vt + savings) * 100.0;
    assert rhs * income == 100.0 * income - out * 100.0;
    CancelPositive(lhs, rhs, income);
  }

  lemma CancelPositive(a: real, b: real, d: real)
    requires d > 0.0 && a * d == b * d
    ensures a == b
  {
    assert (a - b) * d == 0.0;
  }
}
