/** The loan limits and the repayment quote shown before a loan is confirmed. */
module LoanQuote {

  /** LOAN_LIMIT, also written out as 45000 in the loan amount handler. */
  const LoanLimit: real := 45000.0

  /** Cap on the sum of a user's remaining loan balances. */
  const TotalLoanCap: real := 50000.0

  /** 23% per year, simple interest. */
  const InterestRate: real := 0.23

  datatype Quote = Quote(totalRepayment: real, monthlyPayment: real)

  /** The quote for a principal over a number of months: simple interest at the yearly
      rate for that fraction of a year, repaid in equal monthly instalments. */
  function LoanQuote(amount: real, duration: int): (q: Quote)
    requires duration > 0
    ensures q.monthlyPayment * duration as real == q.totalRepayment
  {
    var total := amount * (1.0 + InterestRate * (duration as real / 12.0));
    Quote(total, total / duration as real)
  }

  /** The total repaid is the principal plus 23% a year of it, pro rata over the term. */
  lemma QuoteInterest(amount: real, duration: int)
    requires duration > 0
    ensures LoanQuote(amount, duration).totalRepayment - amount == amount * InterestRate * duration as real / 12.0
  {
  }

  /** For a positive principal, the quote repays more than was lent and every monthly
      payment is positive, so in exact arithmetic the loans table's CHECK
      (monthlyPayment > 0) never fires. */
  lemma QuotePositive(amount: real, duration: int)
    requires amount > 0.0 && duration > 0
    ensures LoanQuote(amount, duration).totalRepayment > amount
    ensures LoanQuote(amount, duration).monthlyPayment > 0.0
  {
    var q := LoanQuote(amount, duration);
    QuoteInterest(amount, duration);
    assert amount * InterestRate * duration as real > 0.0 by {
      assert amount * InterestRate > 0.0;
    }
    assert q.monthlyPayment * duration as real > 0.0;
  }

  /** A 45000 loan over 6 months repays 50175 in six payments of 8362.5. */
  lemma QuoteLargestSixMonthLoan()
    ensures LoanQuote(45000.0, 6) == Quote(50175.0, 8362.5)
  {
  }
}
