/** The `FinancialAdvisorBot` object: its conversation transcript, `parse_financial_query`
    and `process_query`. Every chat-completion request is replaced by its reply, given
    as a parameter; `json.loads`, `json.dumps` and `get_stock_data` are parameters too. */
module Advisor {
  import opened Wrappers
  import opened Json
  import opened Extractors
  import opened Router
  import Loan
  import Investment
  import Retirement
  import Budget

  datatype Role = System | User | Assistant

  /** One `{"role": ..., "content": ...}` entry of `conversation_history`. */
  datatype Turn = Turn(role: Role, content: string)

  /** The outcome of the first chat-completion request: the text of the first choice,
      a response without choices, or an exception with its text. */
  datatype Reply = Content(text: string) | NoChoices | Raised(error: string)

  /** What `parse_financial_query` returns. */
  datatype Parsed =
    | ParseError(message: string)
    | ParseSuccess(query: string, response: string, functionCall: Option<FunctionCall>)

  /** The value of `function_result`, one case per function. */
  datatype FunctionResult =
    | StockResult(stock: Json)
    | LoanResult(loan: Outcome<Loan.LoanSummary>)
    | InvestmentResult(investment: Investment.InvestmentSummary)
    | RetirementResult(retirement: Outcome<Retirement.RetirementPlan>)
    | BudgetResult(budget: Outcome<Budget.BudgetReport>)

  /** What `process_query` returns. */
  datatype QueryResponse =
    | QueryError(message: string)
    | Answer(query: string, response: string, functionResult: Option<FunctionResult>)

  const NoResponseError := "Failed to get response from language model"
  const ParseFailurePrefix := "Failed to parse financial query: "

  function FunctionName(call: FunctionCall): string
  {
    match call
    case GetStockData(_) => "get_stock_data"
    case CalculateLoanPayment(_) => "calculate_loan_payment"
    case CalculateInvestmentGrowth(_) => "calculate_investment_growth"
    case CalculateRetirementNeeds(_) => "calculate_retirement_needs"
    case AnalyzeBudget(_) => "analyze_budget"
  }

  /** The system turn of line 787; `dumps` stands for `json.dumps`. */
  function ResultMessage(call: FunctionCall, result: FunctionResult, dumps: FunctionResult -> string): string
  {
    "Function " + FunctionName(call) + " returned: " + dumps(result)
  }

  /** The result the function named by `call` gives for its parameters. */
  predicate ResultFor(call: FunctionCall, result: FunctionResult, stockData: string -> Json)
  {
    match call
    case GetStockData(ticker) => result == StockResult(stockData(ticker))
    case CalculateLoanPayment(a) =>
      && result.LoanResult?
      && Loan.IsLoanOutcome(a.principal, a.interestRate, a.years, result.loan)
    case CalculateInvestmentGrowth(a) =>
      && result.InvestmentResult?
      && Investment.IsGrowthSummary(a.initialInvestment, a.monthlyContribution, a.annualReturn, a.years,
                                    result.investment)
    case CalculateRetirementNeeds(a) =>
      result == RetirementResult(Retirement.CalculateRetirementNeeds(a.currentAge, a.retirementAge,
        a.lifeExpectancy, a.annualExpenses, a.inflationRate, a.currentSavings,
        a.monthlyContribution, a.expectedReturn))
    case AnalyzeBudget(a) =>
      && result.BudgetResult?
      && Budget.IsBudgetOutcome(a.income, a.expenses, result.budget)
  }

  /** Lines 770-780: the call dispatched to its function by name. */
  method Execute(call: FunctionCall, stockData: string -> Json) returns (result: FunctionResult)
    ensures ResultFor(call, result, stockData)
  {
    match call
    case GetStockData(ticker) =>
      result := StockResult(stockData(ticker));
    case CalculateLoanPayment(a) =>
      var r := Loan.CalculateLoanPayment(a.principal, a.interestRate, a.years);
      result := LoanResult(r);
    case CalculateInvestmentGrowth(a) =>
      var r := Investment.CalculateInvestmentGrowth(a.initialInvestment, a.monthlyContribution,
                                                    a.annualReturn, a.years);
      result := InvestmentResult(r);
    case CalculateRetirementNeeds(a) =>
      result := RetirementResult(Retirement.CalculateRetirementNeeds(a.currentAge, a.retirementAge,
                  a.lifeExpectancy, a.annualExpenses, a.inflationRate, a.currentSavings,
                  a.monthlyContribution, a.expectedReturn));
    case AnalyzeBudget(a) =>
      var r := Budget.AnalyzeBudget(a.income, a.expenses);
      result := BudgetResult(r);
  }

  // ---------------------------------------------------------------- the transcript

  /** The index of the last assistant turn, if there is one. */
  function LastAssistant(history: seq<Turn>): (i: Option<nat>)
    ensures i.Some? ==> i.value < |history| && history[i.value].role == Assistant
    ensures i.Some? ==> forall j :: i.value < j < |history| ==> history[j].role != Assistant
    ensures i.None? ==> forall j :: 0 <= j < |history| ==> history[j].role != Assistant
  {
    if history == [] then None
    else if history[|history| - 1].role == Assistant then Some(|history| - 1)
    else LastAssistant(history[..|history| - 1])
  }

  /** Lines 804-810: the last assistant turn gets the new text; with no assistant turn
      a new one is appended. */
  function WithResponse(history: seq<Turn>, text: string): (h: seq<Turn>)
    ensures LastAssistant(history).Some? ==>
              var i := LastAssistant(history).value;
              && |h| == |history|
              && h[i] == Turn(Assistant, text)
              && forall j :: 0 <= j < |h| && j != i ==> h[j] == history[j]
    ensures LastAssistant(history).None? ==> h == history + [Turn(Assistant, text)]
  {
    match LastAssistant(history)
    case Some(i) => history[i := Turn(Assistant, text)]
    case None => history + [Turn(Assistant, text)]
  }

  /** Overwriting keeps every role, so the transcript's shape is unchanged. */
  lemma WithResponseKeepsRoles(history: seq<Turn>, text: string)
    requires exists j :: 0 <= j < |history| && history[j].role == Assistant
    ensures |WithResponse(history, text)| == |history|
    ensures forall j :: 0 <= j < |history| ==> WithResponse(history, text)[j].role == history[j].role
  {
  }

  class FinancialAdvisorBot {
    var conversationHistory: seq<Turn>

    /** Lines 55-57: the transcript starts with the system prompt as its only turn. */
    constructor(systemPrompt: string)
      ensures conversationHistory == [Turn(System, systemPrompt)]
    {
      conversationHistory := [Turn(System, systemPrompt)];
    }

    /** Lines 416-500. `reply` is the outcome of the request of line 428; the chosen
        extractor's own request gets `extractionReply`. */
    method ParseFinancialQuery(query: string, reply: Reply, extractionReply: Option<string>,
                               parseJson: string -> Option<Json>) returns (parsed: Parsed)
      modifies this
      ensures reply.Content? ==>
                && conversationHistory == old(conversationHistory) + [Turn(User, query), Turn(Assistant, reply.text)]
                && parsed == ParseSuccess(query, reply.text, Route(query, extractionReply, parseJson))
      ensures reply.NoChoices? ==>
                conversationHistory == old(conversationHistory) + [Turn(User, query)]
                && parsed == ParseError(NoResponseError)
      ensures reply.Raised? ==>
                conversationHistory == old(conversationHistory) + [Turn(User, query)]
                && parsed == ParseError(ParseFailurePrefix + reply.error)
    {
      conversationHistory := conversationHistory + [Turn(User, query)];
      match reply
      case Content(text) =>
        conversationHistory := conversationHistory + [Turn(Assistant, text)];
        var call := Route(query, extractionReply, parseJson);
        parsed := ParseSuccess(query, text, call);
      case NoChoices =>
        parsed := ParseError(NoResponseError);
      case Raised(error) =>
        parsed := ParseError(ParseFailurePrefix + error);
    }

    /** Lines 804-810: the backward search for the last assistant turn. */
    method UpdateLastAssistant(text: string)
      modifies this
      ensures conversationHistory == WithResponse(old(conversationHistory), text)
    {
      var i := |conversationHistory| - 1;
      while i >= 0
        invariant -1 <= i < |conversationHistory|
        invariant conversationHistory == old(conversationHistory)
        invariant LastAssistant(conversationHistory) == LastAssistant(conversationHistory[..i + 1])
      {
        if conversationHistory[i].role == Assistant {
          conversationHistory := conversationHistory[i := Turn(Assistant, text)];
          return;
        }
        assert conversationHistory[..i + 1][..i] == conversationHistory[..i];
        i := i - 1;
      }
      conversationHistory := conversationHistory + [Turn(Assistant, text)];
    }

    /** Lines 751-825. `secondReply` is the outcome of the request of line 798
        (`None` when the response has no choices). */
    method ProcessQuery(query: string, reply: Reply, extractionReply: Option<string>,
                        parseJson: string -> Option<Json>, stockData: string -> Json,
                        dumps: FunctionResult -> string, secondReply: Option<string>)
      returns (response: QueryResponse)
      modifies this
      ensures var call := Route(query, extractionReply, parseJson);
              var h := old(conversationHistory);
              && (!reply.Content? ==>
                    && conversationHistory == h + [Turn(User, query)]
                    && response == QueryError(if reply.NoChoices? then NoResponseError
                                              else ParseFailurePrefix + reply.error))
              && (reply.Content? && call.None? ==>
                    && conversationHistory == h + [Turn(User, query), Turn(Assistant, reply.text)]
                    && response == Answer(query, reply.text, None))
              && (reply.Content? && call.Some? && secondReply.None? ==>
                    && |conversationHistory| == |h| + 3
                    && conversationHistory[..|h| + 2] == h + [Turn(User, query), Turn(Assistant, reply.text)]
                    && (exists res :: && ResultFor(call.value, res, stockData)
                                      && conversationHistory[|h| + 2]
                                         == Turn(System, ResultMessage(call.value, res, dumps)))
                    && response == Answer(query, reply.text, None))
              && (reply.Content? && call.Some? && secondReply.Some? ==>
                    && |conversationHistory| == |h| + 3
                    && conversationHistory[..|h| + 2] == h + [Turn(User, query), Turn(Assistant, secondReply.value)]
                    && conversationHistory[|h| + 2].role == System
                    && response.Answer? && response.query == query && response.response == secondReply.value
                    && response.functionResult.Some?
                    && ResultFor(call.value, response.functionResult.value, stockData)
                    && conversationHistory[|h| + 2]
                       == Turn(System, ResultMessage(call.value, response.functionResult.value, dumps)))
    {
      var parsed := ParseFinancialQuery(query, reply, extractionReply, parseJson);
      if parsed.ParseError? {
        return QueryError(parsed.message);
      }
      if parsed.functionCall.None? {
        return Answer(query, parsed.response, None);
      }
      var call := parsed.functionCall.value;
      var result := Execute(call, stockData);
      ghost var before := conversationHistory;
      conversationHistory := conversationHistory + [Turn(System, ResultMessage(call, result, dumps))];
      match secondReply
      case None =>
        response := Answer(query, parsed.response, None);
      case Some(updated) =>
        LastAssistantIsOwnTurn(before, Turn(System, ResultMessage(call, result, dumps)));
        UpdateLastAssistant(updated);
        response := Answer(query, updated, Some(result));
    }
  }

  /** After a query that was answered, the last assistant turn is the one that query
      appended, so the overwrite of lines 804-807 lands on it. */
  lemma LastAssistantIsOwnTurn(history: seq<Turn>, system: Turn)
    requires |history| >= 1 && history[|history| - 1].role == Assistant && system.role == System
    ensures LastAssistant(history + [system]) == Some(|history| - 1)
  {
    assert (history + [system])[..|history|] == history;
  }
}
