# Financial advisor chatbot core, modelled in Dafny

This project models the deterministic core of the `FinancialAdvisorBot` class in
`chatbot_app.py` and proves properties of it. The class answers free-text finance
questions. It keeps a transcript of chat turns and asks a language model for a reply.
A keyword router picks one of five functions, and an extractor asks the model for the
function's parameters as JSON. The function is run, its result is added to the
transcript, and the model is asked again.

Every request to the language model is replaced by its reply, given as a parameter.
So are `json.loads` (a function `parseJson: string -> Option<Json>`, `None` when it
raises), `json.dumps` (a function `dumps`) and `get_stock_data` (a function
`stockData`). With those replaced, every operation is deterministic.

Modules, one file each:

- `Wrappers`: `Option`, `Outcome` (`Success(data)` or `Failure(message)`), min, max and absolute value.
- `Strings`: the Python `str` operations the core uses: `split()`, `strip()`, `upper()`,
  `lower()`, `find`, `rfind`, `isalnum`, `isalpha` and the `in` substring test.
- `Tickers`: `_extract_ticker_symbols`. It is a loop, proved against the function `TickerSymbols`.
- `Json`: the parsed JSON value handed to an extractor. It also holds Python truthiness,
  `dict.get`, `float()` and `int()`.
- `Extractors`: the brace carving and the validation or defaulting step of the four
  `_extract_*_parameters` helpers.
- `Router`: the priority-ordered keyword chain of `parse_financial_query`.
- `Money`: powers of exact reals with integer exponents of either sign. Python's `0.0 ** -n` raises, and the model reports that case as an error.
- `Loan`, `Investment`, `Retirement`, `Budget`: the four calculators.
- `Advisor`: the class `FinancialAdvisorBot` with its `conversationHistory` field,
  `ParseFinancialQuery`, `ProcessQuery` and the in-place overwrite of the last assistant turn.

Money is `real`, so the arithmetic is exact. An expression where Python raises
(division by zero, `0.0` to a negative power) becomes the calculator's error outcome.

The code differs from what its comments and prompts suggest in four places. The model follows the code:

- The query is upper-cased before the case test at line 513, so that test never rejects a word.
  "What is the price of AAPL today?" yields "WHAT" as its first ticker, not "AAPL".
- Rows 1..12 are always kept (line 144), and the schedule is then cut to ten rows (line 161).
  So the returned schedule is always payments 1..min(n, 10). The yearly rows and the last row never appear.
- Loan validation tests truthiness, so a zero field rejects. Investment validation tests
  `is not None`, so zero is accepted.
- Retirement defaults apply only to absent keys. A key present with `null`, which the
  extraction prompt asks for, makes `int(None)` raise, and the whole extraction yields `None`.

## Model

| member | source | states |
|---|---|---|
| Tickers.ExtractTickerSymbols | chatbot_app.py:502-516 | the loop returns exactly `TickerSymbols(query)`, and every ticker has 1 to 5 characters, all upper-case letters |
| Tickers.CaseTestIsVacuous | chatbot_app.py:505-514 | the result equals the scan without the case test: the upper-case check never rejects a word |
| Tickers.WordWithDigitIsDropped | chatbot_app.py:510-513 | a word containing a digit (such as "401K") is never a candidate |
| Tickers.PunctuationIsDropped | chatbot_app.py:510-513 | a word of punctuation only cleans to the empty string and is dropped |
| Tickers.CandidatesOfAppend | chatbot_app.py:508-514 | candidates keep their order of appearance: the scan of a concatenation is the concatenation of the scans |
| Tickers.CleanSource | chatbot_app.py:510 | every character kept by the cleaning comes from the word |
| Tickers.CleanKeeps | chatbot_app.py:510 | the cleaning drops no letter or digit |
| Tickers.PriceOfAaplExample | chatbot_app.py:505-516 | "What is the price of AAPL today?" yields WHAT, IS, THE, PRICE, OF, AAPL, TODAY in that order |
| Strings.SplitJoin | chatbot_app.py:505 | `split()` of words joined by single spaces gives the words back |
| Strings.StripIdempotent | chatbot_app.py:549 | stripping twice is stripping once |
| Json.LookupUnique | chatbot_app.py:556-559 | on an object with distinct keys, as `json.loads` builds, `dict.get` of a member's key finds that member's value |
| Extractors.Carve | chatbot_app.py:549-554 | with both braces in the stripped reply, the result is the span from its first '{' through its last '}', empty exactly when that '}' comes before that '{'; otherwise it is the stripped reply |
| Extractors.CarveIdempotent | chatbot_app.py:549-554 | carving a carved reply changes nothing |
| Extractors.CarveRecoversWrappedObject | chatbot_app.py:549-554 | an object surrounded by brace-free prose is recovered exactly |
| Extractors.LoanFromObject | chatbot_app.py:559-564 | parameters only for an object whose three fields are all truthy, converted by float, float and int; always parameters when they are truthy and convertible |
| Extractors.InvestmentFromObject | chatbot_app.py:612-621 | parameters only when all four fields are non-null, with their converted values; always parameters when every field converts |
| Extractors.RetirementFromObject | chatbot_app.py:672-681 | parameters exactly when every present field converts; each field is its converted value, or its default when absent |
| Extractors.BudgetFromObject | chatbot_app.py:740-744 | parameters only when income and expenses are truthy and income converts; expenses are passed on unchanged |
| Extractors.ParseReply | chatbot_app.py:548-556 | no value without a reply; otherwise `json.loads` of the carved reply |
| Extractors.ExtractLoanParameters | chatbot_app.py:548-566 | no parameters without a reply or when parsing the carved reply fails; otherwise `LoanFromObject` of the parsed value |
| Extractors.ExtractInvestmentParameters | chatbot_app.py:602-623 | no parameters without a reply or when parsing the carved reply fails; otherwise `InvestmentFromObject` of the parsed value |
| Extractors.ExtractRetirementParameters | chatbot_app.py:662-683 | no parameters without a reply or when parsing the carved reply fails; otherwise `RetirementFromObject` of the parsed value |
| Extractors.ExtractBudgetParameters | chatbot_app.py:730-746 | no parameters without a reply or when parsing the carved reply fails; otherwise `BudgetFromObject` of the parsed value |
| Extractors.ZeroRejectsLoanButNotInvestment | chatbot_app.py:559-621 | a zero years field rejects the loan extraction but is accepted, with its zero, by the investment extraction |
| Extractors.RetirementDefaults | chatbot_app.py:672-681 | an empty object gives the defaults 30, 65, 90, 50000, 2.5, 0, 500 and 7 |
| Extractors.RetirementNullFails | chatbot_app.py:672-686 | any of the eight fields present with a null value makes the retirement extraction fail |
| Router.MentionsAnyIff | chatbot_app.py:440 | the `any(...)` test holds exactly when some keyword occurs as a substring |
| Router.FirstGroup | chatbot_app.py:440-482 | the index of the first keyword group that matches; no earlier group matches |
| Router.ClassifyIsFirstMatch | chatbot_app.py:440-482 | the chosen domain is that of the first matching group in the order stock, loan, investment, retirement, budget |
| Router.CallFor | chatbot_app.py:443-480 | the stock branch calls exactly when a ticker exists, with the first one; each other branch calls exactly when its extractor returns parameters, with those parameters |
| Router.Route | chatbot_app.py:437-482 | no call when no group matches; otherwise the call of the first matching group's branch, and a call's domain is always the classified one |
| Router.StockWithoutTickerShadows | chatbot_app.py:440-446 | a stock keyword with no ticker gives no call, whatever later groups would match |
| Router.CompoundInterestIsLoan | chatbot_app.py:449-458 | a query that lower-cases to "compound interest" is routed to the loan branch, not the investment branch |
| Money.PowAtLeastOne | chatbot_app.py:128 | a base of at least one has powers of at least one, and powers above one from the first power on when the base is above one |
| Money.IntPowNotOne | chatbot_app.py:128 | a base above one raised to a non-zero exponent of either sign is not one |
| Loan.MonthlyPayment | chatbot_app.py:119-129 | `None` exactly when Python raises: a zero rate with n = 0, or a non-zero rate whose power `(1 + r) ** n` is undefined or equal to one; a zero-rate payment times n is the principal; otherwise the payment solves the annuity equation |
| Loan.ZeroYearsFails | chatbot_app.py:122-128 | a term of zero years fails at every rate |
| Loan.PositiveRateSucceeds | chatbot_app.py:125-128 | a positive rate with a non-zero term always gives a payment |
| Loan.LoanRow | chatbot_app.py:139-151 | row j has number j; principal paid plus interest paid is the payment; interest is the previous balance times the rate; the remaining balance is the new balance clipped at zero |
| Loan.FirstRows | chatbot_app.py:144-161 | the returned schedule has min(max(n, 0), 10) rows, numbered 1, 2, ... |
| Loan.KeptRowsStart | chatbot_app.py:144 | every first-year payment is kept, so the kept rows begin with rows 1..min(m, 12) |
| Loan.ScheduleIsFirstRows | chatbot_app.py:144-161 | slicing the kept rows to ten gives exactly rows 1..min(n, 10) |
| Loan.RunSchedule | chatbot_app.py:138-151 | the loop ends with the balance after max(n, 0) payments and the rows line 144 keeps |
| Loan.Schedule | chatbot_app.py:138-161 | the returned schedule is rows 1..min(n, 10) |
| Loan.CalculateLoanPayment | chatbot_app.py:117-169 | `IsLoanOutcome`: error exactly when the payment formula raises, with the fixed message; otherwise the payment, n = 12·years, rate/1200, total cost = payment·n, total interest = cost − principal, and the schedule of rows 1..min(n, 10) |
| Loan.BalanceNoInterest | chatbot_app.py:138-142 | at a zero rate each payment repays the same amount |
| Loan.BalanceClosedForm | chatbot_app.py:138-142 | `ClosedForm`: r·B(j) = r·P·q^j − pay·(q^j − 1) with q = 1 + r |
| Loan.LoanAmortizesToZero | chatbot_app.py:126-142 | for a positive term the computed payment leaves a balance of exactly zero after the last payment |
| Loan.BalanceShare | chatbot_app.py:128-142 | `Share`: B(j)·(q^n − 1) = P·(q^n − q^j) for the computed payment |
| Loan.BalanceBounded | chatbot_app.py:138-150 | with a positive rate and a non-negative principal every balance lies between zero and the principal, so `max(0, balance)` never clips |
| Investment.Yearly | chatbot_app.py:212-217 | exactly max(years, 0) snapshots, labelled 1, 2, ... in increasing order |
| Investment.Simulate | chatbot_app.py:186-217 | the loop ends with the simulated balance, contributions initial + n·monthly, the earned interest, and one snapshot per completed year, each the value after its twelfth month |
| Investment.CalculateInvestmentGrowth | chatbot_app.py:184-228 | `IsGrowthSummary`: the final balance, contributions, interest and the three yearly lists are those of the simulation over max(12·years, 0) months; it never fails |
| Investment.BalanceIsContributionsPlusInterest | chatbot_app.py:202-209 | after every month the balance is the total contributed plus the total interest |
| Investment.ZeroReturnEarnsNothing | chatbot_app.py:202-209 | with a zero return the interest is zero and the balance is initial + i·monthly |
| Investment.GrownClosedForm | chatbot_app.py:202-209 | r·B(i) = r·P·q^i + m·(q^i − 1)·q: a lump sum plus contributions made at the start of each month |
| Retirement.CalculateRetirementNeeds | chatbot_app.py:256-308 | error, with the fixed message, exactly when the return is zero, one of the two powers is undefined, or the growth factor is one while there is a shortfall (the division of line 284); otherwise the age differences, future expenses = expenses × (1 + inflation/100)^years, corpus = 25 × future expenses, savings part = savings × growth and contributions part = m·(growth − 1)/r·(1 + r) with growth = (1 + r)^(12·years), their sum as the total, surplus iff the total exceeds the corpus, the reported gap its absolute value, the same contribution without a shortfall and `TopUp` of it with one |
| Retirement.PlanFrom | chatbot_app.py:264-308 | fails exactly at a zero rate or when a shortfall meets a growth factor of one; on success it keeps the years and the future expenses, corpus = 25 × future expenses, savings part = savings × growth, contributions part = m·(growth − 1)/r·(1 + r), total = their sum, surplus iff the shortfall is negative, the gap is its absolute value, the same contribution without a shortfall and m + shortfall·r/(growth − 1) with one |
| Retirement.SameAgeShortfallFails | chatbot_app.py:256-284 | retiring at the current age with savings below 25 × the expenses fails: the growth factor is one and line 284 divides by zero |
| Retirement.ShortfallRaisesContribution | chatbot_app.py:283-287 | with a positive return and at least one year to go the plan succeeds, and a shortfall asks for strictly more than the current contribution |
| Retirement.RequiredContributionMeetsTarget | chatbot_app.py:274-285 | contributing the required amount reaches the corpus plus shortfall·r: it meets the target with one month of interest to spare |
| Retirement.FutureValueMatchesSimulation | chatbot_app.py:271-277 | the closed-form future value equals the month-by-month balance of the investment calculator with the same inputs |
| Budget.Items | chatbot_app.py:323 | the dict's items with their numeric values, in order; `None` only when some value is not a number |
| Budget.Percent | chatbot_app.py:327 | with positive income the share times income is amount·100; otherwise the share is zero |
| Budget.CategoryPercentages | chatbot_app.py:330-331 | exactly the expense categories, in order, each with its share of income |
| Budget.Assess | chatbot_app.py:338-365 | the needs, wants and savings lines recommend 50, 30 and 20 and report actual minus recommended; with positive income each actual times income is its bucket total (savings plus what is left of the income) times 100; otherwise every actual is zero |
| Budget.Suggest | chatbot_app.py:366-380 | the four suggestions in their fixed order, each present exactly when its condition holds; the overspending one comes first exactly when savings are negative |
| Budget.SortDescSortsAndPermutes | chatbot_app.py:383 | the sort is descending by amount and a permutation of the items |
| Budget.SortDescStable | chatbot_app.py:383 | items of equal amount keep their order |
| Budget.AnalyzeBudget | chatbot_app.py:321-397 | `IsBudgetOutcome`: error exactly when the expenses are not a dict of numbers; otherwise total = sum, savings = income − total, the savings rate, shares, assessment, the first min(3, n) sorted items and the suggestions |
| Budget.BucketTotalIsSumIn | chatbot_app.py:338-340 | with distinct categories, a bucket total is the sum of the amounts whose category is in the bucket |
| Budget.SharesAddUp | chatbot_app.py:333-347 | with positive income the needs, wants and savings shares add up to 100 minus the share of the categories no bucket names |
| Advisor.Execute | chatbot_app.py:770-780 | `ResultFor`: the stock data of the ticker, or the loan, investment, retirement or budget result pinned by that calculator's own contract (`IsLoanOutcome`, `IsGrowthSummary`, the value of `Retirement.CalculateRetirementNeeds`, `IsBudgetOutcome`) for the call's parameters |
| Advisor.LastAssistant | chatbot_app.py:804-807 | the index of the last assistant turn, with no assistant turn after it; `None` when there is none |
| Advisor.WithResponse | chatbot_app.py:804-810 | only the last assistant turn's content changes, and the length and every other turn stay; with no assistant turn exactly one turn is appended |
| Advisor.WithResponseKeepsRoles | chatbot_app.py:804-807 | overwriting keeps the length and every role |
| Advisor.LastAssistantIsOwnTurn | chatbot_app.py:785-807 | after the system turn of the function result, the last assistant turn is the one the same query appended |
| Advisor.FinancialAdvisorBot.constructor | chatbot_app.py:55-57 | the transcript starts as the single system turn |
| Advisor.FinancialAdvisorBot.ParseFinancialQuery | chatbot_app.py:416-500 | appends the user turn, plus the assistant turn on a reply; returns the routed call on a reply and the two error messages otherwise |
| Advisor.FinancialAdvisorBot.UpdateLastAssistant | chatbot_app.py:804-810 | the backward search leaves the transcript equal to `WithResponse` of the old one |
| Advisor.FinancialAdvisorBot.ProcessQuery | chatbot_app.py:751-825 | errors and call-less answers leave the turns of the parse; after a call one system turn is appended, naming the function and holding the `json.dumps` of a result the call gives; a second reply overwrites the query's own assistant turn and returns the function result; without a second reply the first answer is returned without it |

## Left out

- Network I/O: every `requests.post` and `response.json()` is replaced by its reply as a parameter.
  An exception raised by the second request of `process_query` is not caught there, and is not modelled.
- `json.loads` and `json.dumps` are the parameters `parseJson` and `dumps`. A JSON object is a
  sequence of members; `Json.DistinctKeys` says that its keys are distinct, as a Python dict's are. `Json.Lookup` returns the
  first member with the key, which on such an object is the only one (`Json.LookupUnique`). How duplicate keys in the text are resolved is up to `parseJson`.
- `get_stock_data` (yfinance and the network) is the parameter `stockData`.
- All `generate_*_chart` methods, `main`, `app.py`, and the API-key and URL set-up of `__init__`
  are left out. They are rendering, console, web and environment handling.
- The constructor takes the system prompt as a parameter instead of reproducing its wording.
- Floating point: money is exact `real`, so IEEE rounding, overflow and infinities are not modelled.
- Exception texts: an error outcome carries the source's fixed prefix ("Failed to calculate loan payment"
  and the like) without Python's exception text. The exception is `parse_financial_query`, where the text is part of the `Raised` reply.
- Json.ToFloat: a JSON string is treated as unconvertible. Python's `float("12.5")` parses the text, and the model does not parse numbers.
- Json.ToInt: a JSON string is treated as unconvertible, for the same reason.
- Strings.Upper, Strings.Lower, Strings.IsAlpha, Strings.IsAlnum: ASCII letters and digits only. Python's Unicode case mapping and letter classes are not modelled.
- Loan.CalculateLoanPayment: the monthly payment is not given for rates where Python would produce `inf` or `nan` without raising.
- Budget.AnalyzeBudget: suggestions are the `Advice` values; `Budget.Text` gives the wording appended by the source.
