/** The rule contract IRule<LoanApplication>: a verdict that is a pure function of the
    application's inputs, and two hooks, one run when the verdict holds and one when it
    fails. Without traits, the four policy rules become the constructors of one datatype
    and each member dispatches on them. */
module Rules {
  import opened Models
  import CreditScore = ApplicantCreditScoreMustBeValidRule
  import GeneralLimit = LoanAmountMustBeWithinGeneralLimitRule
  import LargeLoan = LargeLoanValueRule
  import SmallLoan = SmallLoanAmountMustHaveValidCreditScoreForLtv

  datatype Rule =
    | ApplicantCreditScoreMustBeValid
    | LoanAmountMustBeWithinGeneralLimit
    | LargeLoanValue
    | SmallLoanAmountMustHaveValidCreditScoreForLtv

  /** The verdict of a rule on an application. */
  predicate IsSatisfied(rule: Rule, terms: LoanTerms) {
    match rule
    case ApplicantCreditScoreMustBeValid => CreditScore.IsSatisfied(terms)
    case LoanAmountMustBeWithinGeneralLimit => GeneralLimit.IsSatisfied(terms)
    case LargeLoanValue => LargeLoan.IsSatisfied(terms)
    case SmallLoanAmountMustHaveValidCreditScoreForLtv => SmallLoan.IsSatisfied(terms)
  }

  /** The one message a rule's failure hook records. */
  function FailureReason(rule: Rule): string {
    match rule
    case ApplicantCreditScoreMustBeValid => CreditScore.FailureReason
    case LoanAmountMustBeWithinGeneralLimit => GeneralLimit.FailureReason
    case LargeLoanValue => LargeLoan.FailureReason
    case SmallLoanAmountMustHaveValidCreditScoreForLtv => SmallLoan.FailureReason
  }

  /** The success hook. No policy rule overrides the interface's default, which leaves the
      application unchanged. */
  method ExecuteSuccess(rule: Rule, asset: LoanApplication)
    modifies asset
    ensures asset.declineReasons == old(asset.declineReasons)
    ensures asset.loanApproved == old(asset.loanApproved)
  {
  }

  /** The failure hook: every policy rule overrides the default to append its one message. */
  method ExecuteFailure(rule: Rule, asset: LoanApplication)
    modifies asset
    ensures asset.declineReasons == old(asset.declineReasons) + [FailureReason(rule)]
    ensures asset.loanApproved == old(asset.loanApproved)
  {
    match rule
    case ApplicantCreditScoreMustBeValid => CreditScore.ExecuteFailure(asset);
    case LoanAmountMustBeWithinGeneralLimit => GeneralLimit.ExecuteFailure(asset);
    case LargeLoanValue => LargeLoan.ExecuteFailure(asset);
    case SmallLoanAmountMustHaveValidCreditScoreForLtv => SmallLoan.ExecuteFailure(asset);
  }

  /** Different rules record different messages, so a reason identifies the rule that failed. */
  lemma FailureReasonsAreDistinct(a: Rule, b: Rule)
    requires a != b
    ensures FailureReason(a) != FailureReason(b)
  {
    var ra, rb := FailureReason(a), FailureReason(b);
    assert ra[0] == (if a.ApplicantCreditScoreMustBeValid? then 'A' else if a.SmallLoanAmountMustHaveValidCreditScoreForLtv? then 'S' else 'L');
    assert rb[0] == (if b.ApplicantCreditScoreMustBeValid? then 'A' else if b.SmallLoanAmountMustHaveValidCreditScoreForLtv? then 'S' else 'L');
    assert ra[1] == (match a case LoanAmountMustBeWithinGeneralLimit => 'o' case LargeLoanValue => 'a' case _ => ra[1]);
    assert rb[1] == (match b case LoanAmountMustBeWithinGeneralLimit => 'o' case LargeLoanValue => 'a' case _ => rb[1]);
  }
}
