/** The rule that the loan amount lies between 100,000 and 1,500,000 inclusive. */
module LoanAmountMustBeWithinGeneralLimitRule {
  import opened Models
  import opened Text

  const MinimumLoanAmount: real := 100000.0
  const MaximumLoanAmount: real := 1500000.0

  /** The two limits in pounds-sterling currency format, as the message shows them. */
  const MinimumLoanAmountText: string := "£100,000.00"
  const MaximumLoanAmountText: string := "£1,500,000.00"

  const FailureReason: string :=
    "Loan amount must be between " + MinimumLoanAmountText + " and " + MaximumLoanAmountText + "."

  predicate IsSatisfied(terms: LoanTerms) {
    MinimumLoanAmount <= terms.loanAmount <= MaximumLoanAmount
  }

  /** Appends the one reason, leaving every earlier reason in place. */
  method ExecuteFailure(asset: LoanApplication)
    modifies asset
    ensures asset.declineReasons == old(asset.declineReasons) + [FailureReason]
    ensures asset.loanApproved == old(asset.loanApproved)
  {
    asset.declineReasons := asset.declineReasons + [FailureReason];
  }

  /** The asset value and the credit score never affect the verdict. */
  lemma VerdictDependsOnlyOnLoanAmount(a: LoanTerms, b: LoanTerms)
    requires a.loanAmount == b.loanAmount
    ensures IsSatisfied(a) == IsSatisfied(b)
  {
  }

  /** Both limits are inclusive; any amount beyond either limit fails. */
  lemma LimitsAreInclusive(t: LoanTerms, excess: real)
    requires excess > 0.0
    ensures IsSatisfied(t.(loanAmount := 100000.0))
    ensures IsSatisfied(t.(loanAmount := 1500000.0))
    ensures !IsSatisfied(t.(loanAmount := 100000.0 - excess))
    ensures !IsSatisfied(t.(loanAmount := 1500000.0 + excess))
  {
  }

  /** The amounts exercised by the rule's unit tests, against 1,000,000 at credit 800. */
  lemma TestedAmounts()
    ensures var t := LoanTerms(0.0, 1000000.0, 800);
      && IsSatisfied(t.(loanAmount := 100000.0))
      && IsSatisfied(t.(loanAmount := 500000.0))
      && IsSatisfied(t.(loanAmount := 1500000.0))
      && !IsSatisfied(t.(loanAmount := 99999.0))
      && !IsSatisfied(t.(loanAmount := 1500001.0))
      && !IsSatisfied(t.(loanAmount := 0.0))
      && !IsSatisfied(t.(loanAmount := 50000.0))
  {
  }

  /** The message starts with the fixed wording and names both limits in currency form. */
  lemma FailureReasonNamesBothLimits()
    ensures StartsWith(FailureReason, "Loan amount must be between")
    ensures Contains(FailureReason, "£100,000.00")
    ensures Contains(FailureReason, "£1,500,000.00")
  {
    var head := "Loan amount must be between ";
    assert StartsWith(head, "Loan amount must be between");
    StartsWithConcat(head, MinimumLoanAmountText + " and " + MaximumLoanAmountText + ".", "Loan amount must be between");
    assert FailureReason == head + (MinimumLoanAmountText + " and " + MaximumLoanAmountText + ".");
    ContainsMiddle(head, MinimumLoanAmountText, " and " + MaximumLoanAmountText + ".");
    assert FailureReason == head + MinimumLoanAmountText + (" and " + MaximumLoanAmountText + ".");
    ContainsMiddle(head + MinimumLoanAmountText + " and ", MaximumLoanAmountText, ".");
  }
}
