/** The intent router of `parse_financial_query`: keyword groups tried in a fixed order
    on the lower-cased query, the first group that matches decides the domain, and the
    domain's extractor decides whether there is a call. */
module Router {
  import opened Wrappers
  import opened Strings
  import opened Tickers
  import opened Json
  import opened Extractors

  datatype Domain = Stock | Loan | Investment | Retirement | Budget

  const StockKeywords: seq<string> := ["stock", "ticker", "share price", "stock price"]
  const LoanKeywords: seq<string> := ["loan", "mortgage", "payment", "interest"]
  const InvestmentKeywords: seq<string> := ["invest", "compound", "growth", "return"]
  const RetirementKeywords: seq<string> := ["retire", "retirement", "401k", "pension"]
  const BudgetKeywords: seq<string> := ["budget", "spending", "expense", "income"]

  /** `any(keyword in text for keyword in keywords)`. */
  predicate MentionsAny(text: string, keywords: seq<string>)
  {
    keywords != [] && (Contains(text, keywords[0]) || MentionsAny(text, keywords[1..]))
  }

  /** The `any(...)` test holds exactly when one of the keywords occurs in the text. */
  lemma {:induction false} MentionsAnyIff(text: string, keywords: seq<string>)
    ensures MentionsAny(text, keywords) <==> exists k :: 0 <= k < |keywords| && Contains(text, keywords[k])
  {
    if keywords != [] {
      MentionsAnyIff(text, keywords[1..]);
      assert forall k :: 1 <= k < |keywords| ==> keywords[k] == keywords[1..][k - 1];
    }
  }

  /** The `if/elif` chain of lines 440-482. */
  function Classify(query: string): Option<Domain>
  {
    var q := Lower(query);
    if MentionsAny(q, StockKeywords) then Some(Stock)
    else if MentionsAny(q, LoanKeywords) then Some(Loan)
    else if MentionsAny(q, InvestmentKeywords) then Some(Investment)
    else if MentionsAny(q, RetirementKeywords) then Some(Retirement)
    else if MentionsAny(q, BudgetKeywords) then Some(Budget)
    else None
  }

  // ---------------------------------------------------------------- reference definition

  /** The keyword groups in priority order. */
  const Groups: seq<(Domain, seq<string>)> := [(Stock, StockKeywords), (Loan, LoanKeywords),
    (Investment, InvestmentKeywords), (Retirement, RetirementKeywords), (Budget, BudgetKeywords)]

  /** The index of the first group with a keyword in `q`, or `|groups|` if none has. */
  function FirstGroup(q: string, groups: seq<(Domain, seq<string>)>): (i: nat)
    ensures i <= |groups|
    ensures forall j :: 0 <= j < i ==> !MentionsAny(q, groups[j].1)
    ensures i < |groups| ==> MentionsAny(q, groups[i].1)
  {
    if groups == [] then 0
    else if MentionsAny(q, groups[0].1) then 0
    else 1 + FirstGroup(q, groups[1..])
  }

  /** The router picks the domain of the first matching group: any group before it
      has no keyword in the query, and later groups are never consulted. */
  lemma ClassifyIsFirstMatch(query: string)
    ensures var i := FirstGroup(Lower(query), Groups);
            Classify(query) == if i < |Groups| then Some(Groups[i].0) else None
  {
    var q := Lower(query);
    var g1 := Groups[1..];
    var g2 := g1[1..];
    var g3 := g2[1..];
    var g4 := g3[1..];
    assert Groups[0] == (Stock, StockKeywords) && g1[0] == (Loan, LoanKeywords);
    assert g2[0] == (Investment, InvestmentKeywords) && g3[0] == (Retirement, RetirementKeywords);
    assert g4 == [(Budget, BudgetKeywords)] && g4[1..] == [];
    var i4 := FirstGroup(q, g4);
    assert i4 == if MentionsAny(q, BudgetKeywords) then 0 else 1;
    var i3 := FirstGroup(q, g3);
    assert i3 == if MentionsAny(q, RetirementKeywords) then 0 else 1 + i4;
    var i2 := FirstGroup(q, g2);
    assert i2 == if MentionsAny(q, InvestmentKeywords) then 0 else 1 + i3;
    var i1 := FirstGroup(q, g1);
    assert i1 == if MentionsAny(q, LoanKeywords) then 0 else 1 + i2;
    assert FirstGroup(q, Groups) == if MentionsAny(q, StockKeywords) then 0 else 1 + i1;
  }

  // ---------------------------------------------------------------- the function call

  /** The `function_call` of `parse_financial_query`; `None` is Python's `None`. */
  datatype FunctionCall =
    | GetStockData(ticker: string)
    | CalculateLoanPayment(loan: LoanArgs)
    | CalculateInvestmentGrowth(investment: InvestmentArgs)
    | CalculateRetirementNeeds(retirement: RetirementArgs)
    | AnalyzeBudget(budget: BudgetArgs)

  function DomainOf(call: FunctionCall): Domain
  {
    match call
    case GetStockData(_) => Stock
    case CalculateLoanPayment(_) => Loan
    case CalculateInvestmentGrowth(_) => Investment
    case CalculateRetirementNeeds(_) => Retirement
    case AnalyzeBudget(_) => Budget
  }

  /** The stock branch: the first ticker candidate, if there is one. */
  function StockCall(query: string): (call: Option<FunctionCall>)
    ensures call.Some? <==> TickerSymbols(query) != []
    ensures call.Some? ==> call.value == GetStockData(TickerSymbols(query)[0])
  {
    var tickers := TickerSymbols(query);
    if tickers == [] then None else Some(GetStockData(tickers[0]))
  }

  /** The loan branch: a call exactly when the extractor returns parameters. */
  function LoanCall(extractionReply: Option<string>, parseJson: string -> Option<Json>): (call: Option<FunctionCall>)
    ensures call.Some? <==> ExtractLoanParameters(extractionReply, parseJson).Some?
    ensures call.Some? ==> call.value == CalculateLoanPayment(ExtractLoanParameters(extractionReply, parseJson).value)
  {
    match ExtractLoanParameters(extractionReply, parseJson)
    case None => None
    case Some(a) => Some(CalculateLoanPayment(a))
  }

  /** The investment branch. */
  function InvestmentCall(extractionReply: Option<string>, parseJson: string -> Option<Json>)
    : (call: Option<FunctionCall>)
    ensures call.Some? <==> ExtractInvestmentParameters(extractionReply, parseJson).Some?
    ensures call.Some? ==>
              call.value == CalculateInvestmentGrowth(ExtractInvestmentParameters(extractionReply, parseJson).value)
  {
    match ExtractInvestmentParameters(extractionReply, parseJson)
    case None => None
    case Some(a) => Some(CalculateInvestmentGrowth(a))
  }

  /** The retirement branch. */
  function RetirementCall(extractionReply: Option<string>, parseJson: string -> Option<Json>)
    : (call: Option<FunctionCall>)
    ensures call.Some? <==> ExtractRetirementParameters(extractionReply, parseJson).Some?
    ensures call.Some? ==>
              call.value == CalculateRetirementNeeds(ExtractRetirementParameters(extractionReply, parseJson).value)
  {
    match ExtractRetirementParameters(extractionReply, parseJson)
    case None => None
    case Some(a) => Some(CalculateRetirementNeeds(a))
  }

  /** The budget branch. */
  function BudgetCall(extractionReply: Option<string>, parseJson: string -> Option<Json>): (call: Option<FunctionCall>)
    ensures call.Some? <==> ExtractBudgetParameters(extractionReply, parseJson).Some?
    ensures call.Some? ==> call.value == AnalyzeBudget(ExtractBudgetParameters(extractionReply, parseJson).value)
  {
    match ExtractBudgetParameters(extractionReply, parseJson)
    case None => None
    case Some(a) => Some(AnalyzeBudget(a))
  }

  /** The call of the branch for `domain`: the stock branch takes the first ticker
      candidate, the others take what their extractor returns, and each gives no call
      when there is nothing to take. */
  function CallFor(domain: Domain, query: string, extractionReply: Option<string>,
                   parseJson: string -> Option<Json>): (call: Option<FunctionCall>)
    ensures call.Some? ==> DomainOf(call.value) == domain
    ensures domain == Stock ==>
              (call.Some? <==> TickerSymbols(query) != [])
              && (call.Some? ==> call.value == GetStockData(TickerSymbols(query)[0]))
    ensures domain == Loan ==>
              (call.Some? <==> ExtractLoanParameters(extractionReply, parseJson).Some?)
              && (call.Some? ==>
                    call.value == CalculateLoanPayment(ExtractLoanParameters(extractionReply, parseJson).value))
    ensures domain == Investment ==>
              (call.Some? <==> ExtractInvestmentParameters(extractionReply, parseJson).Some?)
              && (call.Some? ==>
                    call.value == CalculateInvestmentGrowth(ExtractInvestmentParameters(extractionReply, parseJson).value))
    ensures domain == Retirement ==>
              (call.Some? <==> ExtractRetirementParameters(extractionReply, parseJson).Some?)
              && (call.Some? ==>
                    call.value == CalculateRetirementNeeds(ExtractRetirementParameters(extractionReply, parseJson).value))
    ensures domain == Budget ==>
              (call.Some? <==> ExtractBudgetParameters(extractionReply, parseJson).Some?)
              && (call.Some? ==> call.value == AnalyzeBudget(ExtractBudgetParameters(extractionReply, parseJson).value))
  {
    match domain
    case Stock => StockCall(query)
    case Loan => LoanCall(extractionReply, parseJson)
    case Investment => InvestmentCall(extractionReply, parseJson)
    case Retirement => RetirementCall(extractionReply, parseJson)
    case Budget => BudgetCall(extractionReply, parseJson)
  }

  /** The `function_call` of lines 437-482: no call when no group matches, otherwise
      the call of the branch of the first matching group. Only that branch runs an
      extractor, so one extraction reply is enough; `parseJson` stands for `json.loads`. */
  function Route(query: string, extractionReply: Option<string>, parseJson: string -> Option<Json>)
    : (call: Option<FunctionCall>)
    ensures Classify(query).None? ==> call.None?
    ensures Classify(query).Some? ==> call == CallFor(Classify(query).value, query, extractionReply, parseJson)
    ensures call.Some? ==> Classify(query) == Some(DomainOf(call.value))
  {
    match Classify(query)
    case None => None
    case Some(d) => CallFor(d, query, extractionReply, parseJson)
  }

  /** A stock keyword with no ticker candidate ends routing with no call: the later
      groups are not tried, whatever they would have matched. */
  lemma StockWithoutTickerShadows(query: string, extractionReply: Option<string>,
                                  parseJson: string -> Option<Json>)
    requires MentionsAny(Lower(query), StockKeywords) && TickerSymbols(query) == []
    ensures Route(query, extractionReply, parseJson) == None
  {
  }

  // ---------------------------------------------------------------- an example

  lemma MentionsAnyFour(text: string, ks: seq<string>)
    requires |ks| == 4
    ensures MentionsAny(text, ks) <==>
              Contains(text, ks[0]) || Contains(text, ks[1]) || Contains(text, ks[2]) || Contains(text, ks[3])
  {
    var k1 := ks[1..];
    var k2 := k1[1..];
    var k3 := k2[1..];
    assert k1[0] == ks[1] && k2[0] == ks[2] && k3[0] == ks[3] && k3[1..] == [];
    assert MentionsAny(text, k3) <==> Contains(text, ks[3]);
    assert MentionsAny(text, k2) <==> Contains(text, ks[2]) || Contains(text, ks[3]);
  }

  lemma NotContainsMissingChar(s: string, sub: string, c: char)
    requires c in sub && c !in s
    ensures !Contains(s, sub)
  {
    if Contains(s, sub) {
      var i := ContainsWitness(s, sub);
    }
  }

  /** None of the stock keywords occurs in "compound interest". */
  lemma CompoundInterestNoStock(q: string)
    requires q == "compound interest"
    ensures !MentionsAny(q, StockKeywords)
  {
    var ks := StockKeywords;
    assert 'k' in ks[0] && 'k' in ks[1] && 'h' in ks[2] && 'k' in ks[3];
    assert 'k' !in q && 'h' !in q;
    NotContainsMissingChar(q, ks[0], 'k');
    NotContainsMissingChar(q, ks[1], 'k');
    NotContainsMissingChar(q, ks[2], 'h');
    NotContainsMissingChar(q, ks[3], 'k');
    MentionsAnyFour(q, ks);
  }

  lemma CompoundInterestMentionsLoan(q: string)
    requires q == "compound interest"
    ensures MentionsAny(q, LoanKeywords)
  {
    var ks := LoanKeywords;
    assert q[9..17] == ks[3];
    ContainsAt(q, ks[3], 9);
    MentionsAnyFour(q, ks);
  }

  /** "interest" is a loan keyword, so a question about compound interest goes to the
      loan extractor although "compound" is an investment keyword, in any letter case. */
  lemma CompoundInterestIsLoan(query: string)
    requires Lower(query) == "compound interest"
    ensures Classify(query) == Some(Loan)
  {
    CompoundInterestNoStock(Lower(query));
    CompoundInterestMentionsLoan(Lower(query));
  }
}
