/** `calculate_loan_payment`: the annuity payment, its totals and the amortization
    schedule the source keeps. */
module Loan {
  import opened Wrappers
  import opened Money

  datatype Row = Row(paymentNumber: int, paymentAmount: real, principalPaid: real,
                     interestPaid: real, remainingBalance: real)

  datatype LoanSummary = LoanSummary(
    monthlyPayment: real, totalPayments: int, totalCost: real, totalInterest: real,
    interestRateMonthly: real, schedule: seq<Row>)

  function MonthlyRate(interestRate: real): real { interestRate / 100.0 / 12.0 }

  /** The monthly payment of lines 126-129, or `None` where Python raises: a zero rate
      with no payments divides by zero, `0.0 ** n` with `n < 0` raises, and a growth
      factor `(1 + rate) ** n` equal to one divides by zero. */
  function MonthlyPayment(principal: real, interestRate: real, years: int): (pay: Option<real>)
    ensures var r, n := MonthlyRate(interestRate), 12 * years;
            pay.None? <==> (r == 0.0 && n == 0) || (r != 0.0 && (!PowDefined(1.0 + r, n) || IntPow(1.0 + r, n) == 1.0))
    ensures var r, n := MonthlyRate(interestRate), 12 * years;
            pay.Some? && r == 0.0 ==> n != 0 && pay.value * n as real == principal
    ensures var r, n := MonthlyRate(interestRate), 12 * years;
            pay.Some? && r != 0.0 ==>
              && PowDefined(1.0 + r, n) && IntPow(1.0 + r, n) != 1.0
              && pay.value * (IntPow(1.0 + r, n) - 1.0) == principal * r * IntPow(1.0 + r, n)
  {
    var r := MonthlyRate(interestRate);
    var n := 12 * years;
    if r == 0.0 then
      if n == 0 then None else Some(principal / n as real)
    else if !PowDefined(1.0 + r, n) then None
    else
      var growth := IntPow(1.0 + r, n);
      if growth - 1.0 == 0.0 then None
      else Some(principal * (r * growth) / (growth - 1.0))
  }

  /** A term of zero years fails whatever the rate. */
  lemma ZeroYearsFails(principal: real, interestRate: real)
    ensures MonthlyPayment(principal, interestRate, 0) == None
  {
  }

  /** A positive rate and a non-zero term always give a payment. */
  lemma {:induction false} PositiveRateSucceeds(principal: real, interestRate: real, years: int)
    requires interestRate > 0.0 && years != 0
    ensures MonthlyPayment(principal, interestRate, years).Some?
  {
    IntPowNotOne(1.0 + MonthlyRate(interestRate), 12 * years);
  }

  /** The balance after `j` payments (line 142). */
  function Balance(principal: real, r: real, pay: real, j: nat): real
  {
    if j == 0 then principal
    else
      var b := Balance(principal, r, pay, j - 1);
      b - (pay - b * r)
  }

  /** The schedule row of payment `j`, as lines 145-151 build it. */
  function LoanRow(principal: real, r: real, pay: real, j: nat): (row: Row)
    requires j >= 1
    ensures row.paymentNumber == j && row.paymentAmount == pay
    ensures row.principalPaid + row.interestPaid == pay
    ensures row.interestPaid == Balance(principal, r, pay, j - 1) * r
    ensures row.remainingBalance >= 0.0
    ensures row.remainingBalance == MaxReal(0.0, Balance(principal, r, pay, j))
  {
    var interest := Balance(principal, r, pay, j - 1) * r;
    Row(j, pay, pay - interest, interest, MaxReal(0.0, Balance(principal, r, pay, j)))
  }

  /** Line 144: the first year, every twelfth payment and the last payment are kept. */
  predicate Kept(i: int, n: int)
  {
    i <= 12 || i % 12 == 0 || i == n
  }

  /** The rows kept out of payments 1..m. */
  function KeptRows(principal: real, r: real, pay: real, n: int, m: nat): seq<Row>
  {
    if m == 0 then []
    else KeptRows(principal, r, pay, n, m - 1) + (if Kept(m, n) then [LoanRow(principal, r, pay, m)] else [])
  }

  /** The schedule returned: rows 1..min(n, 10). */
  function FirstRows(principal: real, r: real, pay: real, n: int): (rows: seq<Row>)
    ensures |rows| == Min(Max(n, 0), 10)
    ensures forall k :: 0 <= k < |rows| ==> rows[k].paymentNumber == k + 1
  {
    seq(Min(Max(n, 0), 10), k requires 0 <= k => LoanRow(principal, r, pay, k + 1))
  }

  /** Every payment of the first year is kept, so the kept rows start with rows 1..12. */
  lemma {:induction false} KeptRowsStart(principal: real, r: real, pay: real, n: int, m: nat)
    ensures |KeptRows(principal, r, pay, n, m)| >= Min(m, 12)
    ensures m <= 12 ==> |KeptRows(principal, r, pay, n, m)| == m
    ensures forall k :: 0 <= k < Min(m, 12) ==> KeptRows(principal, r, pay, n, m)[k] == LoanRow(principal, r, pay, k + 1)
  {
    if m > 0 {
      KeptRowsStart(principal, r, pay, n, m - 1);
      var before := KeptRows(principal, r, pay, n, m - 1);
      var rows := KeptRows(principal, r, pay, n, m);
      assert forall k :: 0 <= k < |before| ==> rows[k] == before[k];
      if m <= 12 {
        assert rows == before + [LoanRow(principal, r, pay, m)];
      }
    }
  }

  /** Slicing the kept rows to ten leaves rows 1..min(n, 10): the yearly rows and the
      last row never survive the slice. */
  lemma {:induction false} ScheduleIsFirstRows(principal: real, r: real, pay: real, n: int)
    requires n >= 0
    ensures var rows := KeptRows(principal, r, pay, n, n);
            rows[..Min(|rows|, 10)] == FirstRows(principal, r, pay, n)
  {
    KeptRowsStart(principal, r, pay, n, n);
    var rows := KeptRows(principal, r, pay, n, n);
    var first := FirstRows(principal, r, pay, n);
    assert |rows[..Min(|rows|, 10)]| == |first|;
    forall k | 0 <= k < |first| ensures rows[..Min(|rows|, 10)][k] == first[k] {
    }
  }

  /** One more payment: the balance and the kept rows grow as the loop body does. */
  lemma {:induction false} PaymentStep(principal: real, r: real, pay: real, n: int, i: nat, b: real)
    requires i >= 1 && b == Balance(principal, r, pay, i - 1)
    ensures Balance(principal, r, pay, i) == b - (pay - b * r)
    ensures LoanRow(principal, r, pay, i) == Row(i, pay, pay - b * r, b * r, MaxReal(0.0, b - (pay - b * r)))
    ensures KeptRows(principal, r, pay, n, i)
         == KeptRows(principal, r, pay, n, i - 1) + (if Kept(i, n) then [LoanRow(principal, r, pay, i)] else [])
  {
  }

  /** The loop of lines 138-151: `n` payments, keeping the rows line 144 selects. */
  method RunSchedule(principal: real, monthlyRate: real, monthlyPayment: real, nPayments: int)
    returns (schedule: seq<Row>, balance: real)
    ensures balance == Balance(principal, monthlyRate, monthlyPayment, Max(nPayments, 0))
    ensures schedule == KeptRows(principal, monthlyRate, monthlyPayment, nPayments, Max(nPayments, 0))
  {
    schedule := [];
    balance := principal;
    var i := 1;
    while i <= nPayments
      invariant 1 <= i <= Max(nPayments, 0) + 1
      invariant balance == Balance(principal, monthlyRate, monthlyPayment, i - 1)
      invariant schedule == KeptRows(principal, monthlyRate, monthlyPayment, nPayments, i - 1)
    {
      PaymentStep(principal, monthlyRate, monthlyPayment, nPayments, i, balance);
      var interestPayment := balance * monthlyRate;
      var principalPayment := monthlyPayment - interestPayment;
      balance := balance - principalPayment;
      if i <= 12 || i % 12 == 0 || i == nPayments {
        schedule := schedule + [Row(i, monthlyPayment, principalPayment, interestPayment, MaxReal(0.0, balance))];
      }
      i := i + 1;
    }
  }

  /** What lines 105-169 return for the three inputs: the error exactly when the
      payment formula raises, otherwise the payment, its totals and the rows kept. */
  predicate IsLoanOutcome(principal: real, interestRate: real, years: int, result: Outcome<LoanSummary>)
  {
    && (MonthlyPayment(principal, interestRate, years).None? <==> result.Failure?)
    && (result.Failure? ==> result.message == "Failed to calculate loan payment")
    && (result.Success? ==>
          var pay, n, r := MonthlyPayment(principal, interestRate, years).value, 12 * years,
                           MonthlyRate(interestRate);
          && result.data.monthlyPayment == pay && result.data.totalPayments == n
          && result.data.totalCost == pay * n as real
          && result.data.totalInterest == result.data.totalCost - principal
          && result.data.interestRateMonthly == r
          && result.data.schedule == FirstRows(principal, r, pay, n))
  }

  method CalculateLoanPayment(principal: real, interestRate: real, years: int)
    returns (result: Outcome<LoanSummary>)
    ensures IsLoanOutcome(principal, interestRate, years, result)
  {
    var payment := MonthlyPayment(principal, interestRate, years);
    if payment.None? {
      return Failure("Failed to calculate loan payment");
    }
    var monthlyRate := MonthlyRate(interestRate);
    var nPayments := 12 * years;
    var monthlyPayment := payment.value;
    var first := Schedule(principal, monthlyRate, monthlyPayment, nPayments);
    var totalCost := monthlyPayment * nPayments as real;
    var totalInterest := totalCost - principal;
    result := Success(LoanSummary(monthlyPayment, nPayments, totalCost, totalInterest, monthlyRate, first));
  }

  /** The schedule as returned: the kept rows sliced to ten (line 161). */
  method Schedule(principal: real, monthlyRate: real, monthlyPayment: real, nPayments: int)
    returns (first: seq<Row>)
    ensures first == FirstRows(principal, monthlyRate, monthlyPayment, nPayments)
  {
    var schedule, _ := RunSchedule(principal, monthlyRate, monthlyPayment, nPayments);
    if nPayments >= 0 {
      ScheduleIsFirstRows(principal, monthlyRate, monthlyPayment, nPayments);
    } else {
      assert schedule == [];
    }
    first := schedule[..Min(|schedule|, 10)];
  }

  // ---------------------------------------------------------------- amortization

  /** With no interest each payment repays the same amount. */
  lemma {:induction false} BalanceNoInterest(principal: real, pay: real, j: nat)
    ensures Balance(principal, 0.0, pay, j) == principal - j as real * pay
  {
    if j > 0 {
      BalanceNoInterest(principal, pay, j - 1);
    }
  }

  /** The closed form of the balance after `j` payments, `b`, with `p` = (1 + r)^j:
      r·b = r·P·p − pay·(p − 1). */
  predicate ClosedForm(principal: real, r: real, pay: real, b: real, p: real)
  {
    r * b == r * principal * p - pay * (p - 1.0)
  }

  /** The balance satisfies its closed form after every number of payments. */
  lemma {:induction false} BalanceClosedForm(principal: real, r: real, pay: real, j: nat)
    ensures ClosedForm(principal, r, pay, Balance(principal, r, pay, j), Pow(1.0 + r, j))
  {
    if j > 0 {
      var b, p := Balance(principal, r, pay, j - 1), Pow(1.0 + r, j - 1);
      BalanceClosedForm(principal, r, pay, j - 1);
      assert Balance(principal, r, pay, j) == b - (pay - b * r);
      ClosedFormStep(principal, r, pay, b, p, Balance(principal, r, pay, j), Pow(1.0 + r, j));
    }
  }

  lemma ClosedFormStep(principal: real, r: real, pay: real, b: real, p: real, b': real, p': real)
    requires ClosedForm(principal, r, pay, b, p)
    requires b' == b - (pay - b * r) && p' == (1.0 + r) * p
    ensures ClosedForm(principal, r, pay, b', p')
  {
    assert r * b' == (r * b) * (1.0 + r) - r * pay;
    assert (r * principal * p - pay * (p - 1.0)) * (1.0 + r)
        == r * principal * ((1.0 + r) * p) - pay * ((1.0 + r) * p) + pay * (1.0 + r);
  }

  /** The annuity equation `pay · (growth − 1) = principal · r · growth`, where
      `growth` is `(1 + r) ** n`. */
  predicate Annuity(principal: real, r: real, pay: real, growth: real)
  {
    pay * (growth - 1.0) == principal * r * growth
  }

  /** The payment the source computes solves the annuity equation. */
  lemma {:induction false} PaymentEquation(principal: real, interestRate: real, years: int)
    requires years > 0 && MonthlyPayment(principal, interestRate, years).Some?
    requires MonthlyRate(interestRate) != 0.0
    ensures var r, n := MonthlyRate(interestRate), 12 * years;
            Annuity(principal, r, MonthlyPayment(principal, interestRate, years).value, Pow(1.0 + r, n))
  {
  }

  /** The payment the source computes pays the loan off exactly at the last payment. */
  lemma {:induction false} LoanAmortizesToZero(principal: real, interestRate: real, years: int)
    requires years > 0 && MonthlyPayment(principal, interestRate, years).Some?
    ensures Balance(principal, MonthlyRate(interestRate), MonthlyPayment(principal, interestRate, years).value,
                    12 * years) == 0.0
  {
    var r, n := MonthlyRate(interestRate), 12 * years;
    var pay := MonthlyPayment(principal, interestRate, years).value;
    if r == 0.0 {
      BalanceNoInterest(principal, pay, n);
    } else {
      PaymentEquation(principal, interestRate, years);
      PaidOff(principal, r, pay, n);
    }
  }

  lemma {:induction false} PaidOff(principal: real, r: real, pay: real, n: nat)
    requires r != 0.0 && Annuity(principal, r, pay, Pow(1.0 + r, n))
    ensures Balance(principal, r, pay, n) == 0.0
  {
    BalanceClosedForm(principal, r, pay, n);
    PaidOffStep(principal, r, pay, Balance(principal, r, pay, n), Pow(1.0 + r, n));
  }

  lemma PaidOffStep(principal: real, r: real, pay: real, b: real, g: real)
    requires r != 0.0 && ClosedForm(principal, r, pay, b, g) && Annuity(principal, r, pay, g)
    ensures b == 0.0
  {
    assert r * b == 0.0;
  }

  /** B(j)·(q^n − 1) = P·(q^n − q^j) for the payment the source computes. */
  lemma {:induction false} BalanceShare(principal: real, interestRate: real, years: int, j: nat)
    requires years > 0 && MonthlyPayment(principal, interestRate, years).Some?
    requires MonthlyRate(interestRate) != 0.0
    ensures var r, n := MonthlyRate(interestRate), 12 * years;
            Share(principal, Balance(principal, r, MonthlyPayment(principal, interestRate, years).value, j),
                  Pow(1.0 + r, j), Pow(1.0 + r, n))
  {
    PaymentEquation(principal, interestRate, years);
    ShareOfPayment(principal, MonthlyRate(interestRate), MonthlyPayment(principal, interestRate, years).value,
                   12 * years, j);
  }

  /** The balance `b` left after the payments that grew the rate factor to `p`, as a share
      of the principal: b·(g − 1) = P·(g − p), where `g` is the factor over the whole term. */
  predicate Share(principal: real, b: real, p: real, g: real)
  {
    b * (g - 1.0) == principal * (g - p)
  }

  lemma {:induction false} ShareOfPayment(principal: real, r: real, pay: real, n: nat, j: nat)
    requires r != 0.0 && Annuity(principal, r, pay, Pow(1.0 + r, n))
    ensures Share(principal, Balance(principal, r, pay, j), Pow(1.0 + r, j), Pow(1.0 + r, n))
  {
    BalanceClosedForm(principal, r, pay, j);
    ShareStep(principal, r, pay, Balance(principal, r, pay, j), Pow(1.0 + r, j), Pow(1.0 + r, n));
  }

  lemma ShareStep(principal: real, r: real, pay: real, b: real, p: real, g: real)
    requires r != 0.0 && ClosedForm(principal, r, pay, b, p) && Annuity(principal, r, pay, g)
    ensures Share(principal, b, p, g)
  {
    calc {
      r * (b * (g - 1.0));
      (r * b) * (g - 1.0);
      r * principal * p * (g - 1.0) - (pay * (g - 1.0)) * (p - 1.0);
      r * principal * p * (g - 1.0) - principal * r * g * (p - 1.0);
      r * (principal * (g - p));
    }
  }

  /** For a positive rate and a non-negative principal the balance stays between zero
      and the principal, so `max(0, balance)` never clips a row. */
  lemma {:induction false} BalanceBounded(principal: real, interestRate: real, years: int, j: nat)
    requires years > 0 && interestRate > 0.0 && principal >= 0.0 && j <= 12 * years
    ensures MonthlyPayment(principal, interestRate, years).Some?
    ensures var b := Balance(principal, MonthlyRate(interestRate), MonthlyPayment(principal, interestRate, years).value, j);
            0.0 <= b <= principal
  {
    PositiveRateSucceeds(principal, interestRate, years);
    PaymentEquation(principal, interestRate, years);
    BoundedByPayment(principal, MonthlyRate(interestRate), MonthlyPayment(principal, interestRate, years).value,
                     12 * years, j);
  }

  lemma {:induction false} BoundedByPayment(principal: real, r: real, pay: real, n: nat, j: nat)
    requires r > 0.0 && principal >= 0.0 && 1 <= n && j <= n
    requires Annuity(principal, r, pay, Pow(1.0 + r, n))
    ensures 0.0 <= Balance(principal, r, pay, j) <= principal
  {
    PowAtLeastOne(1.0 + r, n);
    PaymentCoversInterest(principal, r, pay, Pow(1.0 + r, n));
    PaidOff(principal, r, pay, n);
    BalanceAbove(principal, r, pay, j, n);
    BalanceFalls(principal, r, pay, j);
  }

  /** The payment is at least the first month's interest. */
  lemma PaymentCoversInterest(principal: real, r: real, pay: real, g: real)
    requires principal >= 0.0 && r > 0.0 && g > 1.0 && Annuity(principal, r, pay, g)
    ensures pay >= principal * r
  {
    assert (pay - principal * r) * (g - 1.0) == principal * r;
    NonNegativeProduct(principal, r);
    SignOfFactor(pay - principal * r, g - 1.0);
  }

  /** A payment that covers the interest on the principal never lets the balance rise. */
  lemma {:induction false} BalanceFalls(principal: real, r: real, pay: real, j: nat)
    requires r > 0.0 && pay >= principal * r
    ensures Balance(principal, r, pay, j) <= principal
    ensures j >= 1 ==> Balance(principal, r, pay, j) <= Balance(principal, r, pay, j - 1)
  {
    if j >= 1 {
      BalanceFalls(principal, r, pay, j - 1);
      PaymentStepDown(Balance(principal, r, pay, j - 1), principal, r, pay);
    }
  }

  lemma PaymentStepDown(b: real, principal: real, r: real, pay: real)
    requires r > 0.0 && b <= principal && pay >= principal * r
    ensures b - (pay - b * r) <= b
  {
    NonNegativeProduct(principal - b, r);
    DistributeRight(principal, b, r);
  }

  /** The balance after `n` payments is at most the balance after any earlier payment. */
  lemma {:induction false} BalanceAbove(principal: real, r: real, pay: real, j: nat, n: nat)
    requires r > 0.0 && pay >= principal * r && j <= n
    ensures Balance(principal, r, pay, n) <= Balance(principal, r, pay, j)
    decreases n - j
  {
    if j < n {
      BalanceAbove(principal, r, pay, j, n - 1);
      BalanceFalls(principal, r, pay, n);
    }
  }

  lemma NonNegativeProduct(a: real, c: real)
    requires a >= 0.0 && c >= 0.0
    ensures a * c >= 0.0
  {
  }

  /** A product with a positive factor has the sign of the other factor. */
  lemma SignOfFactor(a: real, d: real)
    requires d > 0.0 && a * d >= 0.0
    ensures a >= 0.0
  {
  }

  lemma DistributeRight(a: real, b: real, d: real)
    ensures (a - b) * d == a * d - b * d
  {
  }
}
