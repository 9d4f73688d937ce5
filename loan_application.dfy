/** The loan application entity: its three business inputs, the loan-to-value percentage
    derived from them, and the decision outcome that the rules engine fills in. */
module Models {

  /** The business inputs of an application. Amounts are exact decimals. */
  datatype LoanTerms = LoanTerms(loanAmount: real, securedAssetValue: real, applicantsCreditScore: int)
  {
    /** Loan-to-value as a percentage, recomputed on every read. A zero asset value gives
        zero instead of a division by zero; otherwise the result times the asset value is
        one hundred times the loan amount. */
    function LoanToValuePercent(): (ltv: real)
      ensures securedAssetValue == 0.0 ==> ltv == 0.0
      ensures securedAssetValue != 0.0 ==> ltv * securedAssetValue == loanAmount * 100.0
      ensures loanAmount >= 0.0 && securedAssetValue >= 0.0 ==> ltv >= 0.0
    {
      if securedAssetValue == 0.0 then 0.0 else loanAmount / securedAssetValue * 100.0
    }
  }

  /** What the statistics read from a decided application: its inputs and its verdict. */
  datatype DecidedApplication = DecidedApplication(terms: LoanTerms, loanApproved: bool)

  class LoanApplication {
    const loanAmount: real
    const securedAssetValue: real
    const applicantsCreditScore: int
    var loanApproved: bool
    var declineReasons: seq<string>

    function Terms(): LoanTerms {
      LoanTerms(loanAmount, securedAssetValue, applicantsCreditScore)
    }

    function Decided(): DecidedApplication
      reads this
    {
      DecidedApplication(Terms(), loanApproved)
    }

    /** Stores the three inputs; no reason recorded and not approved yet. Running the
        rules and setting the verdict is done by LoanEvaluation.NewLoanApplication. */
    constructor (loanAmount: real, securedAssetValue: real, applicantsCreditScore: int)
      ensures Terms() == LoanTerms(loanAmount, securedAssetValue, applicantsCreditScore)
      ensures declineReasons == [] && !loanApproved
    {
      this.loanAmount := loanAmount;
      this.securedAssetValue := securedAssetValue;
      this.applicantsCreditScore := applicantsCreditScore;
      loanApproved := false;
      declineReasons := [];
    }
  }

  /** With a positive asset value, "LTV is at most b" is the division-free comparison
      loanAmount * 100 <= b * securedAssetValue. */
  lemma LtvAtMostIff(t: LoanTerms, bound: real)
    requires t.securedAssetValue > 0.0
    ensures t.LoanToValuePercent() <= bound <==> t.loanAmount * 100.0 <= bound * t.securedAssetValue
  {
    var ltv := t.LoanToValuePercent();
    assert ltv * t.securedAssetValue == t.loanAmount * 100.0;
    MultiplyPreservesOrder(ltv, bound, t.securedAssetValue);
  }

  /** With a positive asset value, "LTV is below b" is loanAmount * 100 < b * securedAssetValue. */
  lemma LtvBelowIff(t: LoanTerms, bound: real)
    requires t.securedAssetValue > 0.0
    ensures t.LoanToValuePercent() < bound <==> t.loanAmount * 100.0 < bound * t.securedAssetValue
  {
    var ltv := t.LoanToValuePercent();
    assert ltv * t.securedAssetValue == t.loanAmount * 100.0;
    MultiplyPreservesOrder(ltv, bound, t.securedAssetValue);
  }

  /** Loan-to-value percentages named by the application's tests: exact where the division
      is exact, within 0.01 of 66.67 for two thirds, and zero for a zero asset value. */
  lemma TestedLoanToValues()
    ensures LoanTerms(500000.0, 1000000.0, 800).LoanToValuePercent() == 50.0
    ensures 66.66 <= LoanTerms(400000.0, 600000.0, 800).LoanToValuePercent() <= 66.68
    ensures LoanTerms(450000.0, 500000.0, 800).LoanToValuePercent() == 90.0
    ensures LoanTerms(100000.0, 0.0, 800).LoanToValuePercent() == 0.0
  {
  }

  lemma MultiplyPreservesOrder(x: real, y: real, k: real)
    requires k > 0.0
    ensures x <= y <==> x * k <= y * k
    ensures x < y <==> x * k < y * k
  {
    assert (y - x) * k == y * k - x * k;
  }
}
