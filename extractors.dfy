/** The four `_extract_*_parameters` helpers, from the extraction reply onwards: the
    reply text is carved down to its JSON object, parsed, and validated or defaulted.
    The LLM request is not modelled: its reply is an input (`None` when the response
    has no choices), and `json.loads` is the function parameter `parseJson`
    (`None` when it raises). */
module Extractors {
  import opened Wrappers
  import opened Strings
  import opened Json

  datatype LoanArgs = LoanArgs(principal: real, interestRate: real, years: int)

  datatype InvestmentArgs =
    InvestmentArgs(initialInvestment: real, monthlyContribution: real, annualReturn: real, years: int)

  datatype RetirementArgs = RetirementArgs(
    currentAge: int, retirementAge: int, lifeExpectancy: int,
    annualExpenses: real, inflationRate: real, currentSavings: real,
    monthlyContribution: real, expectedReturn: real)

  /** `expenses_dict` is passed on as parsed: `analyze_budget` decides what it can sum. */
  datatype BudgetArgs = BudgetArgs(income: real, expenses: Json)

  // ---------------------------------------------------------------- carving

  predicate HasBothBraces(s: string) { '{' in s && '}' in s }

  /** `r` is what lines 549-554 make of `s`: when `s` holds both a '{' and a '}', the
      span from the first '{' through the last '}', which is empty exactly when that
      '}' comes before that '{' (Python's slice `s[start:end]` with `end < start`);
      otherwise `s` itself. */
  predicate IsCut(s: string, r: string)
  {
    if HasBothBraces(s) then
      var i, j := Find(s, '{'), RFind(s, '}');
      && (i <= j ==> r == s[i..j + 1])
      && (r == [] <==> j < i)
    else r == s
  }

  /** The reply is stripped and then cut down to its JSON object. */
  function Carve(reply: string): (r: string)
    ensures IsCut(Strip(reply), r)
    ensures HasBothBraces(Strip(reply)) ==> r == [] || (r[0] == '{' && r[|r| - 1] == '}')
    ensures !HasBothBraces(Strip(reply)) ==> r == Strip(reply)
  {
    CarveStripped(Strip(reply))
  }

  /** The cut of lines 551-554 on the stripped reply. */
  function CarveStripped(content: string): (r: string)
    ensures IsCut(content, r)
    ensures HasBothBraces(content) ==> r == [] || (r[0] == '{' && r[|r| - 1] == '}')
    ensures !HasBothBraces(content) ==> r == content
  {
    if HasBothBraces(content) then
      var start := Find(content, '{');
      var end := RFind(content, '}') + 1;
      if start <= end then content[start..end] else []
    else content
  }

  /** A reply that already runs from a '{' to a '}' is left as it is. */
  lemma CarveKeepsObject(r: string)
    requires r != [] && r[0] == '{' && r[|r| - 1] == '}'
    ensures Carve(r) == r
  {
    StripTrimmed(r);
    CutKeepsObject(r);
  }

  lemma CutKeepsObject(r: string)
    requires r != [] && r[0] == '{' && r[|r| - 1] == '}'
    ensures CarveStripped(r) == r
  {
    var start, end := Find(r, '{'), RFind(r, '}');
    assert start == 0 && end == |r| - 1;
    assert r[0..|r|] == r;
  }

  /** Carving what was already carved changes nothing. */
  lemma CarveIdempotent(reply: string)
    ensures Carve(Carve(reply)) == Carve(reply)
  {
    var r := Carve(reply);
    if !HasBothBraces(Strip(reply)) {
      StripIdempotent(reply);
    } else if r != [] {
      CarveKeepsObject(r);
    }
  }

  /** Stripping prose around an object strips only the prose. */
  lemma StripAroundObject(before: string, obj: string, after: string)
    requires |obj| >= 2 && obj[0] == '{' && obj[|obj| - 1] == '}'
    ensures Strip(before + obj + after) == StripLeft(before) + obj + StripRight(after)
  {
    LeftOfObject(before, obj, after);
    RightOfObject(StripLeft(before), obj, after);
  }

  lemma LeftOfObject(before: string, obj: string, after: string)
    requires obj != [] && obj[0] == '{'
    ensures StripLeft(before + obj + after) == StripLeft(before) + obj + after
  {
    Associative(before, obj, after);
    Associative(StripLeft(before), obj, after);
    assert (obj + after)[0] == '{';
    StripLeftKeepsTail(before, obj + after);
  }

  lemma RightOfObject(l: string, obj: string, after: string)
    requires obj != [] && obj[|obj| - 1] == '}'
    ensures StripRight(l + obj + after) == l + obj + StripRight(after)
  {
    assert (l + obj)[|l + obj| - 1] == '}';
    StripRightKeepsHead(l + obj, after);
  }

  lemma Associative(a: string, b: string, c: string)
    ensures a + b + c == a + (b + c)
  {
  }

  /** The braces of `obj` are the first '{' and the last '}' of `l + obj + r`. */
  lemma CarveMiddle(l: string, obj: string, r: string)
    requires |obj| >= 2 && obj[0] == '{' && obj[|obj| - 1] == '}'
    requires '{' !in l && '}' !in r
    ensures HasBothBraces(l + obj + r)
    ensures Find(l + obj + r, '{') == |l| && RFind(l + obj + r, '}') == |l| + |obj| - 1
  {
    var t := l + obj + r;
    assert t[|l|] == '{' && t[|l| + |obj| - 1] == '}';
    assert forall j :: 0 <= j < |l| ==> t[j] == l[j];
    assert forall j :: |l| + |obj| <= j < |t| ==> t[j] == r[j - |l| - |obj|];
  }

  lemma NotInSlice(s: string, c: char, i: nat, j: nat)
    requires c !in s && i <= j <= |s|
    ensures c !in s[i..j]
  {
    forall k | 0 <= k < j - i
      ensures s[i..j][k] != c
    {
      assert s[i..j][k] == s[i + k];
    }
  }

  lemma MiddleSlice(l: string, obj: string, r: string)
    ensures (l + obj + r)[|l|..|l| + |obj|] == obj
  {
  }

  /** An object wrapped in prose that holds no braces is recovered exactly. */
  lemma CarveRecoversWrappedObject(before: string, obj: string, after: string)
    requires |obj| >= 2 && obj[0] == '{' && obj[|obj| - 1] == '}'
    requires '{' !in before && '}' !in before && '{' !in after && '}' !in after
    ensures Carve(before + obj + after) == obj
  {
    var l, r := StripLeft(before), StripRight(after);
    StripAroundObject(before, obj, after);
    NotInSlice(before, '{', |before| - |l|, |before|);
    NotInSlice(after, '}', 0, |r|);
    CutMiddle(l, obj, r);
  }

  lemma CutMiddle(l: string, obj: string, r: string)
    requires |obj| >= 2 && obj[0] == '{' && obj[|obj| - 1] == '}'
    requires '{' !in l && '}' !in r
    ensures CarveStripped(l + obj + r) == obj
  {
    CarveMiddle(l, obj, r);
    MiddleSlice(l, obj, r);
  }

  // ---------------------------------------------------------------- validation

  /** Lines 559-564: every field must be truthy (present, not null, not zero); then
      `float`, `float` and `int` convert them, and a failing conversion gives `None`. */
  function LoanFromObject(params: Json): (r: Option<LoanArgs>)
    ensures r.Some? ==> params.JObj?
    ensures r.Some? ==> && Truthy(Get(params.members, "principal"))
                        && Truthy(Get(params.members, "interest_rate"))
                        && Truthy(Get(params.members, "years"))
    ensures r.Some? ==> && ToFloat(Get(params.members, "principal")) == Some(r.value.principal)
                        && ToFloat(Get(params.members, "interest_rate")) == Some(r.value.interestRate)
                        && ToInt(Get(params.members, "years")) == Some(r.value.years)
    ensures (&& params.JObj? && Truthy(Get(params.members, "principal"))
             && Truthy(Get(params.members, "interest_rate")) && Truthy(Get(params.members, "years"))
             && ToFloat(Get(params.members, "principal")).Some?
             && ToFloat(Get(params.members, "interest_rate")).Some?
             && ToInt(Get(params.members, "years")).Some?) ==> r.Some?
  {
    match params
    case JObj(m) =>
      var p, i, y := Get(m, "principal"), Get(m, "interest_rate"), Get(m, "years");
      if Truthy(p) && Truthy(i) && Truthy(y) then
        match (ToFloat(p), ToFloat(i), ToInt(y))
        case (Some(a), Some(b), Some(c)) => Some(LoanArgs(a, b, c))
        case _ => None
      else None
    case _ => None
  }

  /** Lines 612-621: every field must be non-null (zero and false are accepted). */
  function InvestmentFromObject(params: Json): (r: Option<InvestmentArgs>)
    ensures r.Some? ==> params.JObj?
    ensures r.Some? ==> && Get(params.members, "initial_investment") != JNull
                        && Get(params.members, "monthly_contribution") != JNull
                        && Get(params.members, "annual_return") != JNull
                        && Get(params.members, "years") != JNull
    ensures r.Some? ==>
              && ToFloat(Get(params.members, "initial_investment")) == Some(r.value.initialInvestment)
              && ToFloat(Get(params.members, "monthly_contribution")) == Some(r.value.monthlyContribution)
              && ToFloat(Get(params.members, "annual_return")) == Some(r.value.annualReturn)
              && ToInt(Get(params.members, "years")) == Some(r.value.years)
    ensures (&& params.JObj?
             && ToFloat(Get(params.members, "initial_investment")).Some?
             && ToFloat(Get(params.members, "monthly_contribution")).Some?
             && ToFloat(Get(params.members, "annual_return")).Some?
             && ToInt(Get(params.members, "years")).Some?) ==> r.Some?
  {
    match params
    case JObj(m) =>
      var a, b, c, d := Get(m, "initial_investment"), Get(m, "monthly_contribution"),
                        Get(m, "annual_return"), Get(m, "years");
      if a != JNull && b != JNull && c != JNull && d != JNull then
        match (ToFloat(a), ToFloat(b), ToFloat(c), ToInt(d))
        case (Some(x), Some(y), Some(z), Some(n)) => Some(InvestmentArgs(x, y, z, n))
        case _ => None
      else None
    case _ => None
  }

  /** `int(params.get(key, default))`: the default applies only to an absent key. */
  function IntOr(m: seq<(string, Json)>, key: string, default: int): (r: Option<int>)
    ensures Lookup(m, key).None? ==> r == Some(default)
    ensures Lookup(m, key).Some? ==> r == ToInt(Lookup(m, key).value)
  {
    match Lookup(m, key)
    case None => Some(default)
    case Some(v) => ToInt(v)
  }

  /** `float(params.get(key, default))`. */
  function FloatOr(m: seq<(string, Json)>, key: string, default: real): (r: Option<real>)
    ensures Lookup(m, key).None? ==> r == Some(default)
    ensures Lookup(m, key).Some? ==> r == ToFloat(Lookup(m, key).value)
  {
    match Lookup(m, key)
    case None => Some(default)
    case Some(v) => ToFloat(v)
  }

  /** A field the retirement extractor can read: absent, or present and convertible. */
  predicate IntField(m: seq<(string, Json)>, key: string)
  {
    Lookup(m, key).None? || ToInt(Lookup(m, key).value).Some?
  }

  predicate FloatField(m: seq<(string, Json)>, key: string)
  {
    Lookup(m, key).None? || ToFloat(Lookup(m, key).value).Some?
  }

  predicate RetirementReadable(m: seq<(string, Json)>)
  {
    && IntField(m, "current_age") && IntField(m, "retirement_age") && IntField(m, "life_expectancy")
    && FloatField(m, "annual_expenses") && FloatField(m, "inflation_rate")
    && FloatField(m, "current_savings") && FloatField(m, "monthly_contribution")
    && FloatField(m, "expected_return")
  }

  /** Lines 672-681: each field takes its default when absent and is converted when
      present; one failing conversion (a null value among them) gives `None`. */
  function RetirementFromObject(params: Json): (r: Option<RetirementArgs>)
    ensures r.Some? <==> params.JObj? && RetirementReadable(params.members)
    ensures r.Some? ==> && Some(r.value.currentAge) == IntOr(params.members, "current_age", 30)
                        && Some(r.value.retirementAge) == IntOr(params.members, "retirement_age", 65)
                        && Some(r.value.lifeExpectancy) == IntOr(params.members, "life_expectancy", 90)
                        && Some(r.value.annualExpenses) == FloatOr(params.members, "annual_expenses", 50000.0)
                        && Some(r.value.inflationRate) == FloatOr(params.members, "inflation_rate", 2.5)
                        && Some(r.value.currentSavings) == FloatOr(params.members, "current_savings", 0.0)
                        && Some(r.value.monthlyContribution) == FloatOr(params.members, "monthly_contribution", 500.0)
                        && Some(r.value.expectedReturn) == FloatOr(params.members, "expected_return", 7.0)
  {
    match params
    case JObj(m) =>
      (match (IntOr(m, "current_age", 30), IntOr(m, "retirement_age", 65), IntOr(m, "life_expectancy", 90),
             FloatOr(m, "annual_expenses", 50000.0), FloatOr(m, "inflation_rate", 2.5),
             FloatOr(m, "current_savings", 0.0), FloatOr(m, "monthly_contribution", 500.0),
             FloatOr(m, "expected_return", 7.0))
      case (Some(a), Some(b), Some(c), Some(d), Some(e), Some(f), Some(g), Some(h)) =>
        Some(RetirementArgs(a, b, c, d, e, f, g, h))
      case _ => None)
    case _ => None
  }

  /** Lines 740-744: income must be truthy and convertible, expenses truthy. */
  function BudgetFromObject(params: Json): (r: Option<BudgetArgs>)
    ensures r.Some? ==> params.JObj?
    ensures r.Some? ==> && Truthy(Get(params.members, "income"))
                        && Truthy(Get(params.members, "expenses"))
                        && ToFloat(Get(params.members, "income")) == Some(r.value.income)
                        && r.value.expenses == Get(params.members, "expenses")
    ensures (&& params.JObj? && Truthy(Get(params.members, "income"))
             && Truthy(Get(params.members, "expenses"))
             && ToFloat(Get(params.members, "income")).Some?) ==> r.Some?
  {
    match params
    case JObj(m) =>
      var income, expenses := Get(m, "income"), Get(m, "expenses");
      if Truthy(income) && Truthy(expenses) then
        match ToFloat(income)
        case Some(x) => Some(BudgetArgs(x, expenses))
        case None => None
      else None
    case _ => None
  }

  // ---------------------------------------------------------------- the extractors

  /** The reply carved and parsed; `None` when there was no reply or parsing failed. */
  function ParseReply(reply: Option<string>, parseJson: string -> Option<Json>): (r: Option<Json>)
    ensures reply.None? ==> r.None?
    ensures reply.Some? ==> r == parseJson(Carve(reply.value))
  {
    match reply
    case None => None
    case Some(text) => parseJson(Carve(text))
  }

  /** Lines 548-566: no parameters without a reply or when `json.loads` raises on the carved
      reply; otherwise what the validation makes of the parsed value. */
  function ExtractLoanParameters(reply: Option<string>, parseJson: string -> Option<Json>): (r: Option<LoanArgs>)
    ensures reply.None? ==> r.None?
    ensures reply.Some? && parseJson(Carve(reply.value)).None? ==> r.None?
    ensures reply.Some? && parseJson(Carve(reply.value)).Some? ==>
              r == LoanFromObject(parseJson(Carve(reply.value)).value)
  {
    match ParseReply(reply, parseJson)
    case None => None
    case Some(params) => LoanFromObject(params)
  }

  /** Lines 602-623: no parameters without a reply or when `json.loads` raises on the carved
      reply; otherwise what the validation makes of the parsed value. */
  function ExtractInvestmentParameters(reply: Option<string>, parseJson: string -> Option<Json>): (r: Option<InvestmentArgs>)
    ensures reply.None? ==> r.None?
    ensures reply.Some? && parseJson(Carve(reply.value)).None? ==> r.None?
    ensures reply.Some? && parseJson(Carve(reply.value)).Some? ==>
              r == InvestmentFromObject(parseJson(Carve(reply.value)).value)
  {
    match ParseReply(reply, parseJson)
    case None => None
    case Some(params) => InvestmentFromObject(params)
  }

  /** Lines 662-683: no parameters without a reply or when `json.loads` raises on the carved
      reply; otherwise what the validation makes of the parsed value. */
  function ExtractRetirementParameters(reply: Option<string>, parseJson: string -> Option<Json>): (r: Option<RetirementArgs>)
    ensures reply.None? ==> r.None?
    ensures reply.Some? && parseJson(Carve(reply.value)).None? ==> r.None?
    ensures reply.Some? && parseJson(Carve(reply.value)).Some? ==>
              r == RetirementFromObject(parseJson(Carve(reply.value)).value)
  {
    match ParseReply(reply, parseJson)
    case None => None
    case Some(params) => RetirementFromObject(params)
  }

  /** Lines 730-746: no parameters without a reply or when `json.loads` raises on the carved
      reply; otherwise what the validation makes of the parsed value. */
  function ExtractBudgetParameters(reply: Option<string>, parseJson: string -> Option<Json>): (r: Option<BudgetArgs>)
    ensures reply.None? ==> r.None?
    ensures reply.Some? && parseJson(Carve(reply.value)).None? ==> r.None?
    ensures reply.Some? && parseJson(Carve(reply.value)).Some? ==>
              r == BudgetFromObject(parseJson(Carve(reply.value)).value)
  {
    match ParseReply(reply, parseJson)
    case None => None
    case Some(params) => BudgetFromObject(params)
  }

  // ---------------------------------------------------------------- the differences between them

  lemma LoanZeroYears(principal: real, rate: real)
    ensures LoanFromObject(JObj([("principal", JNum(principal)), ("interest_rate", JNum(rate)),
                                 ("years", JNum(0.0))])) == None
  {
    var m := [("principal", JNum(principal)), ("interest_rate", JNum(rate)), ("years", JNum(0.0))];
    assert Lookup(m[2..], "years") == Some(JNum(0.0));
    assert Lookup(m[1..], "years") == Lookup(m[2..], "years");
    assert Lookup(m, "years") == Lookup(m[1..], "years");
  }

  lemma InvestmentZeroYears(initial: real, monthly: real)
    ensures InvestmentFromObject(JObj([("initial_investment", JNum(initial)),
                                       ("monthly_contribution", JNum(monthly)),
                                       ("annual_return", JNum(0.0)), ("years", JNum(0.0))]))
         == Some(InvestmentArgs(initial, monthly, 0.0, 0))
  {
    var m := [("initial_investment", JNum(initial)), ("monthly_contribution", JNum(monthly)),
              ("annual_return", JNum(0.0)), ("years", JNum(0.0))];
    var m1, m2, m3 := m[1..], m[2..], m[3..];
    assert m1[1..] == m2 && m2[1..] == m3 && m3[1..] == [];
    assert Lookup(m, "initial_investment") == Some(JNum(initial));
    assert Lookup(m, "monthly_contribution") == Lookup(m1, "monthly_contribution") == Some(JNum(monthly));
    assert Lookup(m, "annual_return") == Lookup(m1, "annual_return") == Lookup(m2, "annual_return");
    assert Lookup(m, "years") == Lookup(m1, "years") == Lookup(m2, "years") == Lookup(m3, "years");
  }

  /** A zero loan field rejects the extraction, while the same zero is accepted by the
      investment extractor. */
  lemma ZeroRejectsLoanButNotInvestment(principal: real, rate: real, initial: real, monthly: real)
    ensures LoanFromObject(JObj([("principal", JNum(principal)), ("interest_rate", JNum(rate)),
                                 ("years", JNum(0.0))])) == None
    ensures InvestmentFromObject(JObj([("initial_investment", JNum(initial)),
                                       ("monthly_contribution", JNum(monthly)),
                                       ("annual_return", JNum(0.0)), ("years", JNum(0.0))]))
         == Some(InvestmentArgs(initial, monthly, 0.0, 0))
  {
    LoanZeroYears(principal, rate);
    InvestmentZeroYears(initial, monthly);
  }

  /** With no field present every retirement default applies. */
  lemma RetirementDefaults()
    ensures RetirementFromObject(JObj([]))
         == Some(RetirementArgs(30, 65, 90, 50000.0, 2.5, 0.0, 500.0, 7.0))
  {
  }

  /** A field present with a null value (what the extraction prompt asks for when the
      query does not say) makes the whole retirement extraction fail. */
  lemma RetirementNullFails(params: Json, key: string)
    requires params.JObj?
    requires || key == "current_age" || key == "retirement_age" || key == "life_expectancy"
             || key == "annual_expenses" || key == "inflation_rate" || key == "current_savings"
             || key == "monthly_contribution" || key == "expected_return"
    requires Lookup(params.members, key) == Some(JNull)
    ensures RetirementFromObject(params) == None
  {
    var m := params.members;
    assert !IntField(m, key) && !FloatField(m, key);
  }
}
