/** The rule that an applicant's credit score lies between 1 and 999 inclusive. */
module ApplicantCreditScoreMustBeValidRule {
  import opened Models
  import opened Text

  const MinimumCreditScore: int := 1
  const MaximumCreditScore: int := 999

  /** The message recorded on failure, naming both bounds. (Long messages are written as
      concatenated fragments throughout, so that the verifier can read their characters.) */
  const FailureReason: string := "Applicant's credit score" + " must be between 1 and 999."

  predicate IsSatisfied(terms: LoanTerms) {
    MinimumCreditScore <= terms.applicantsCreditScore <= MaximumCreditScore
  }

  /** Appends the one reason, leaving every earlier reason in place. */
  method ExecuteFailure(asset: LoanApplication)
    modifies asset
    ensures asset.declineReasons == old(asset.declineReasons) + [FailureReason]
    ensures asset.loanApproved == old(asset.loanApproved)
  {
    asset.declineReasons := asset.declineReasons + [FailureReason];
  }

  /** The loan amount and the asset value never affect the verdict. */
  lemma VerdictDependsOnlyOnCreditScore(a: LoanTerms, b: LoanTerms)
    requires a.applicantsCreditScore == b.applicantsCreditScore
    ensures IsSatisfied(a) == IsSatisfied(b)
  {
  }

  /** Both ends of the range are inclusive, and one step beyond either end fails. */
  lemma BoundsAreInclusive(t: LoanTerms)
    ensures IsSatisfied(t.(applicantsCreditScore := 1))
    ensures IsSatisfied(t.(applicantsCreditScore := 999))
    ensures !IsSatisfied(t.(applicantsCreditScore := 0))
    ensures !IsSatisfied(t.(applicantsCreditScore := 1000))
  {
  }

  /** The passing scores form one unbroken range: a score between two passing scores passes. */
  lemma PassingScoresAreContiguous(t: LoanTerms, low: int, high: int, score: int)
    requires IsSatisfied(t.(applicantsCreditScore := low))
    requires IsSatisfied(t.(applicantsCreditScore := high))
    requires low <= score <= high
    ensures IsSatisfied(t.(applicantsCreditScore := score))
  {
  }

  /** The scores exercised by the rule's unit tests, on a 500,000 loan against 1,000,000. */
  lemma TestedScores()
    ensures var t := LoanTerms(500000.0, 1000000.0, 0);
      && IsSatisfied(t.(applicantsCreditScore := 1))
      && IsSatisfied(t.(applicantsCreditScore := 500))
      && IsSatisfied(t.(applicantsCreditScore := 999))
      && IsSatisfied(t.(applicantsCreditScore := 750))
      && !IsSatisfied(t.(applicantsCreditScore := 0))
      && !IsSatisfied(t.(applicantsCreditScore := 1000))
      && !IsSatisfied(t.(applicantsCreditScore := -1))
      && !IsSatisfied(t.(applicantsCreditScore := 1500))
  {
  }

  /** The message names the valid range. */
  lemma FailureReasonNamesRange()
    ensures Contains(FailureReason, "credit score must be between" + " 1 and 999")
  {
    var head, range := "Applicant's ", "credit score must be between" + " 1 and 999";
    assert "Applicant's credit score" == head + "credit score";
    assert " must be between 1 and 999." == " must be between" + " 1 and 999" + ".";
    assert range == "credit score" + " must be between" + " 1 and 999";
    assert FailureReason == head + range + ".";
    ContainsMiddle(head, range, ".");
  }
}
