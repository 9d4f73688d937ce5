/** The rule that a large loan needs a credit score of at least 950 and an LTV of at most 60%. */
module LargeLoanValueRule {
  import opened Models
  import opened Text
  import opened LoanApplicationConstants

  const MinimumCreditScore: int := 950
  const MaximumLoanToValuePercent: real := 60.0

  const FailureReason: string :=
    "Large loan value" + " must have a credit score" + " of at least 950" + " and LTV percent" + " of 60% or less."

  /** A loan below the large-loan threshold passes; a large one needs both conditions. */
  predicate IsSatisfied(terms: LoanTerms) {
    if terms.loanAmount >= LargeLoanAmount then
      terms.applicantsCreditScore >= MinimumCreditScore
      && terms.LoanToValuePercent() <= MaximumLoanToValuePercent
    else
      true
  }

  /** Appends the one reason, leaving every earlier reason in place. */
  method ExecuteFailure(asset: LoanApplication)
    modifies asset
    ensures asset.declineReasons == old(asset.declineReasons) + [FailureReason]
    ensures asset.loanApproved == old(asset.loanApproved)
  {
    asset.declineReasons := asset.declineReasons + [FailureReason];
  }

  /** Below the threshold the rule holds whatever the LTV and credit score. */
  lemma SmallLoansAlwaysPass(t: LoanTerms)
    requires t.loanAmount < LargeLoanAmount
    ensures IsSatisfied(t)
  {
  }

  /** At or above the threshold the rule holds exactly when both limits are met. */
  lemma LargeLoanNeedsScoreAndLtv(t: LoanTerms)
    requires t.loanAmount >= LargeLoanAmount
    ensures IsSatisfied(t) <==> t.applicantsCreditScore >= 950 && t.LoanToValuePercent() <= 60.0
  {
  }

  /** With a positive asset value the verdict is the division-free comparison. */
  lemma CrossMultipliedForm(t: LoanTerms)
    requires t.securedAssetValue > 0.0
    ensures IsSatisfied(t) <==>
      t.loanAmount < LargeLoanAmount
      || (t.applicantsCreditScore >= 950 && t.loanAmount * 100.0 <= 60.0 * t.securedAssetValue)
  {
    LtvAtMostIff(t, 60.0);
  }

  /** Raising the credit score never turns a pass into a fail. */
  lemma MonotoneInCreditScore(t: LoanTerms, score: int)
    requires IsSatisfied(t)
    requires score >= t.applicantsCreditScore
    ensures IsSatisfied(t.(applicantsCreditScore := score))
  {
  }

  /** The cases exercised by the rule's unit tests. 1,500,000 against 2,500,000 is an LTV of
      exactly 60 and passes: the LTV bound is inclusive. */
  lemma TestedCases()
    ensures IsSatisfied(LoanTerms(1000000.0, 2000000.0, 950))
    ensures IsSatisfied(LoanTerms(1000000.0, 1666667.0, 999))
    ensures IsSatisfied(LoanTerms(1500000.0, 2500000.0, 950))
    ensures LoanTerms(1500000.0, 2500000.0, 950).LoanToValuePercent() == 60.0
    ensures !IsSatisfied(LoanTerms(1000000.0, 1600000.0, 950))
    ensures !IsSatisfied(LoanTerms(1000000.0, 2000000.0, 949))
    ensures !IsSatisfied(LoanTerms(1000000.0, 1500000.0, 800))
    ensures IsSatisfied(LoanTerms(500000.0, 1000000.0, 700))
    ensures IsSatisfied(LoanTerms(999999.0, 1000000.0, 600))
  {
  }

  lemma FailureReasonStartsWithLargeLoanValue()
    ensures StartsWith(FailureReason, "Large loan value")
  {
    var head := "Large loan value";
    assert StartsWith(head, head);
    StartsWithConcat(head, " must have a credit score" + " of at least 950" + " and LTV percent" + " of 60% or less.", head);
    assert FailureReason == head + (" must have a credit score" + " of at least 950" + " and LTV percent" + " of 60% or less.");
  }
}
