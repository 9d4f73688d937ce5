/** Construction of a loan application: store the inputs, run the fixed four-rule policy
    through a rules engine, then set the verdict from the reasons recorded. Also the
    properties of that policy as a whole. */
module LoanEvaluation {
  import opened Models
  import opened Rules
  import opened Engine
  import opened Text
  import CreditScore = ApplicantCreditScoreMustBeValidRule
  import GeneralLimit = LoanAmountMustBeWithinGeneralLimitRule
  import LargeLoan = LargeLoanValueRule
  import SmallLoan = SmallLoanAmountMustHaveValidCreditScoreForLtv

  /** The fixed policy, in evaluation order. */
  const PolicyRules: seq<Rule> := [
    ApplicantCreditScoreMustBeValid,
    LoanAmountMustBeWithinGeneralLimit,
    LargeLoanValue,
    SmallLoanAmountMustHaveValidCreditScoreForLtv
  ]

  /** The reasons the policy records for these inputs. */
  function DeclineReasons(terms: LoanTerms): seq<string> {
    FailureReasons(PolicyRules, terms)
  }

  /** The decided application these inputs produce. */
  function Decide(terms: LoanTerms): DecidedApplication {
    DecidedApplication(terms, DeclineReasons(terms) == [])
  }

  /** The application's constructor. The inputs are stored unchanged, the reasons are those
      of the failing policy rules in policy order, and the application is approved exactly
      when no reason was recorded. Equal inputs therefore give equal outcomes. */
  method NewLoanApplication(loanAmount: real, securedAssetValue: real, applicantsCreditScore: int)
    returns (app: LoanApplication)
    ensures fresh(app)
    ensures app.Terms() == LoanTerms(loanAmount, securedAssetValue, applicantsCreditScore)
    ensures app.declineReasons == DeclineReasons(app.Terms())
    ensures app.loanApproved == (|app.declineReasons| == 0)
    ensures app.Decided() == Decide(app.Terms())
  {
    app := new LoanApplication(loanAmount, securedAssetValue, applicantsCreditScore);
    var engine := new RulesEngine(PolicyRules);
    var outcome;
    ghost var calls;
    outcome, calls := engine.Execute(app);
    app.loanApproved := |app.declineReasons| == 0;
  }

  /** The reasons appear in policy order: credit score, general limit, large loan, small loan. */
  lemma DeclineReasonsInPolicyOrder(t: LoanTerms)
    ensures DeclineReasons(t) ==
      ReasonOf(ApplicantCreditScoreMustBeValid, t)
      + ReasonOf(LoanAmountMustBeWithinGeneralLimit, t)
      + ReasonOf(LargeLoanValue, t)
      + ReasonOf(SmallLoanAmountMustHaveValidCreditScoreForLtv, t)
  {
    var r0, r1, r2, r3 := ApplicantCreditScoreMustBeValid, LoanAmountMustBeWithinGeneralLimit,
      LargeLoanValue, SmallLoanAmountMustHaveValidCreditScoreForLtv;
    assert PolicyRules == [r0] + [r1] + [r2] + [r3];
    FailureReasonsAppend([r0] + [r1] + [r2], [r3], t);
    FailureReasonsAppend([r0] + [r1], [r2], t);
    FailureReasonsAppend([r0], [r1], t);
    OneRuleReasons(r0, t);
    OneRuleReasons(r1, t);
    OneRuleReasons(r2, t);
    OneRuleReasons(r3, t);
  }

  /** The large-loan and small-loan rules split on the same threshold, so one of them holds. */
  lemma LargeAndSmallNeverBothFail(t: LoanTerms)
    ensures IsSatisfied(LargeLoanValue, t) || IsSatisfied(SmallLoanAmountMustHaveValidCreditScoreForLtv, t)
  {
  }

  /** No element occurs twice. */
  predicate Distinct<T(==)>(s: seq<T>) {
    forall i, j :: 0 <= i < j < |s| ==> s[i] != s[j]
  }

  /** Joining two sequences without repeats and without common elements gives one without
      repeats. */
  lemma DistinctConcat<T>(xs: seq<T>, ys: seq<T>)
    requires Distinct(xs) && Distinct(ys)
    requires forall x :: x in xs ==> x !in ys
    ensures Distinct(xs + ys)
  {
    var zs := xs + ys;
    forall i, j | 0 <= i < j < |zs| ensures zs[i] != zs[j] {
      if j < |xs| {
        assert zs[i] == xs[i] && zs[j] == xs[j];
      } else if i < |xs| {
        assert zs[i] == xs[i] && zs[j] == ys[j - |xs|];
        assert xs[i] in xs;
      } else {
        assert zs[i] == ys[i - |xs|] && zs[j] == ys[j - |xs|];
      }
    }
  }

  /** At most three reasons are recorded, and no reason is recorded twice. */
  lemma AtMostThreeDistinctReasons(t: LoanTerms)
    ensures |DeclineReasons(t)| <= 3
    ensures Distinct(DeclineReasons(t))
  {
    DeclineReasonsInPolicyOrder(t);
    LargeAndSmallNeverBothFail(t);
    var r0, r1, r2, r3 := ApplicantCreditScoreMustBeValid, LoanAmountMustBeWithinGeneralLimit,
      LargeLoanValue, SmallLoanAmountMustHaveValidCreditScoreForLtv;
    FailureReasonsAreDistinct(r0, r1);
    FailureReasonsAreDistinct(r0, r2);
    FailureReasonsAreDistinct(r0, r3);
    FailureReasonsAreDistinct(r1, r2);
    FailureReasonsAreDistinct(r1, r3);
    FailureReasonsAreDistinct(r2, r3);
    var a, b, c, d := ReasonOf(r0, t), ReasonOf(r1, t), ReasonOf(r2, t), ReasonOf(r3, t);
    DistinctConcat(a, b);
    DistinctConcat(a + b, c);
    DistinctConcat(a + b + c, d);
  }

  /** The application is approved exactly when all four rules hold. */
  lemma ApprovedIffEveryRuleHolds(t: LoanTerms)
    ensures Decide(t).loanApproved <==>
      CreditScore.IsSatisfied(t) && GeneralLimit.IsSatisfied(t)
      && LargeLoan.IsSatisfied(t) && SmallLoan.IsSatisfied(t)
  {
    DeclineReasonsInPolicyOrder(t);
  }

  /** A failing rule's message is among the reasons, so any text it contains is found there. */
  lemma ReasonRecorded(rule: Rule, t: LoanTerms, part: string)
    requires !IsSatisfied(rule, t)
    requires Contains(FailureReason(rule), part)
    ensures SomeContains(DeclineReasons(t), part)
  {
    var rs := DeclineReasons(t);
    assert FailureReason(rule) in rs by {
      DeclineReasonsInPolicyOrder(t);
      assert ReasonOf(rule, t) == [FailureReason(rule)];
      match rule
      case ApplicantCreditScoreMustBeValid =>
      case LoanAmountMustBeWithinGeneralLimit =>
      case LargeLoanValue =>
      case SmallLoanAmountMustHaveValidCreditScoreForLtv =>
    }
    var i :| 0 <= i < |rs| && rs[i] == FailureReason(rule);
    assert Contains(rs[i], part);
  }

  /** Inputs the application's unit tests expect to be approved with no reason, and the case
      LTV = 0 for a zero asset value, which the policy does not decline by itself. */
  lemma TestedApprovals()
    ensures DeclineReasons(LoanTerms(100000.0, 200000.0, 800)) == []
    ensures DeclineReasons(LoanTerms(1500000.0, 3000000.0, 950)) == []
    ensures DeclineReasons(LoanTerms(500000.0, 1000000.0, 750)) == []
    ensures DeclineReasons(LoanTerms(1000000.0, 2000000.0, 950)) == []
    ensures DeclineReasons(LoanTerms(1500000.0, 2500000.0, 999)) == []
    ensures DeclineReasons(LoanTerms(500000.0, 700000.0, 800)) == []
    ensures DeclineReasons(LoanTerms(500000.0, 600000.0, 900)) == []
    ensures DeclineReasons(LoanTerms(1000000.0, 1666667.0, 999)) == []
    ensures LoanTerms(100000.0, 0.0, 800).LoanToValuePercent() == 0.0
    ensures DeclineReasons(LoanTerms(100000.0, 0.0, 800)) == []
  {
    DeclineReasonsInPolicyOrder(LoanTerms(100000.0, 200000.0, 800));
    DeclineReasonsInPolicyOrder(LoanTerms(1500000.0, 3000000.0, 950));
    DeclineReasonsInPolicyOrder(LoanTerms(500000.0, 1000000.0, 750));
    DeclineReasonsInPolicyOrder(LoanTerms(1000000.0, 2000000.0, 950));
    DeclineReasonsInPolicyOrder(LoanTerms(1500000.0, 2500000.0, 999));
    DeclineReasonsInPolicyOrder(LoanTerms(500000.0, 700000.0, 800));
    DeclineReasonsInPolicyOrder(LoanTerms(500000.0, 600000.0, 900));
    DeclineReasonsInPolicyOrder(LoanTerms(1000000.0, 1666667.0, 999));
    DeclineReasonsInPolicyOrder(LoanTerms(100000.0, 0.0, 800));
  }

  /** Amounts outside the general limit that the application's unit tests expect to be
      declined, each with the general-limit message among its reasons. */
  lemma TestedLoanAmountDeclines()
    ensures SomeContains(DeclineReasons(LoanTerms(99999.0, 200000.0, 800)), "Loan amount must be between")
    ensures SomeContains(DeclineReasons(LoanTerms(1500001.0, 3000000.0, 950)), "Loan amount must be between")
    ensures SomeContains(DeclineReasons(LoanTerms(0.0, 200000.0, 800)), "Loan amount must be between")
  {
    GeneralLimit.FailureReasonNamesBothLimits();
    StartsWithContains(GeneralLimit.FailureReason, "Loan amount must be between");
    assert SomeContains(DeclineReasons(LoanTerms(99999.0, 200000.0, 800)), "Loan amount must be between") by {
      ReasonRecorded(LoanAmountMustBeWithinGeneralLimit, LoanTerms(99999.0, 200000.0, 800), "Loan amount must be between");
    }
    assert SomeContains(DeclineReasons(LoanTerms(1500001.0, 3000000.0, 950)), "Loan amount must be between") by {
      ReasonRecorded(LoanAmountMustBeWithinGeneralLimit, LoanTerms(1500001.0, 3000000.0, 950), "Loan amount must be between");
    }
    assert SomeContains(DeclineReasons(LoanTerms(0.0, 200000.0, 800)), "Loan amount must be between") by {
      ReasonRecorded(LoanAmountMustBeWithinGeneralLimit, LoanTerms(0.0, 200000.0, 800), "Loan amount must be between");
    }
  }

  /** Scores outside 1 to 999 that the unit tests expect to be declined, each with the
      credit-score message among its reasons. */
  lemma TestedCreditScoreDeclines()
    ensures SomeContains(DeclineReasons(LoanTerms(100000.0, 200000.0, 0)), "credit score must be between")
    ensures SomeContains(DeclineReasons(LoanTerms(100000.0, 200000.0, 1000)), "credit score must be between")
    ensures SomeContains(DeclineReasons(LoanTerms(100000.0, 200000.0, -1)), "credit score must be between")
  {
    CreditScore.FailureReasonNamesRange();
    ContainsFront(CreditScore.FailureReason, "credit score must be between", " 1 and 999");
    assert SomeContains(DeclineReasons(LoanTerms(100000.0, 200000.0, 0)), "credit score must be between") by {
      ReasonRecorded(ApplicantCreditScoreMustBeValid, LoanTerms(100000.0, 200000.0, 0), "credit score must be between");
    }
    assert SomeContains(DeclineReasons(LoanTerms(100000.0, 200000.0, 1000)), "credit score must be between") by {
      ReasonRecorded(ApplicantCreditScoreMustBeValid, LoanTerms(100000.0, 200000.0, 1000), "credit score must be between");
    }
    assert SomeContains(DeclineReasons(LoanTerms(100000.0, 200000.0, -1)), "credit score must be between") by {
      ReasonRecorded(ApplicantCreditScoreMustBeValid, LoanTerms(100000.0, 200000.0, -1), "credit score must be between");
    }
  }

  /** Large loans that the unit tests expect to be declined, for their score or their LTV,
      each with the large-loan message among its reasons. */
  lemma TestedLargeLoanDeclines()
    ensures SomeContains(DeclineReasons(LoanTerms(1000000.0, 1500000.0, 949)), "Large loan value")
    ensures SomeContains(DeclineReasons(LoanTerms(1000000.0, 1600000.0, 950)), "Large loan value")
    ensures SomeContains(DeclineReasons(LoanTerms(1000000.0, 1500000.0, 950)), "Large loan value")
  {
    LargeLoan.FailureReasonStartsWithLargeLoanValue();
    StartsWithContains(LargeLoan.FailureReason, "Large loan value");
    assert SomeContains(DeclineReasons(LoanTerms(1000000.0, 1500000.0, 949)), "Large loan value") by {
      ReasonRecorded(LargeLoanValue, LoanTerms(1000000.0, 1500000.0, 949), "Large loan value");
    }
    assert SomeContains(DeclineReasons(LoanTerms(1000000.0, 1600000.0, 950)), "Large loan value") by {
      ReasonRecorded(LargeLoanValue, LoanTerms(1000000.0, 1600000.0, 950), "Large loan value");
    }
    assert SomeContains(DeclineReasons(LoanTerms(1000000.0, 1500000.0, 950)), "Large loan value") by {
      ReasonRecorded(LargeLoanValue, LoanTerms(1000000.0, 1500000.0, 950), "Large loan value");
    }
  }

  /** Small loans that the unit tests expect to be declined, one per LTV band, each with the
      small-loan message among its reasons. */
  lemma TestedSmallLoanDeclines()
    ensures SomeContains(DeclineReasons(LoanTerms(500000.0, 1000000.0, 749)), "Small loan amount")
    ensures SomeContains(DeclineReasons(LoanTerms(500000.0, 700000.0, 799)), "Small loan amount")
    ensures SomeContains(DeclineReasons(LoanTerms(500000.0, 600000.0, 899)), "Small loan amount")
    ensures SomeContains(DeclineReasons(LoanTerms(500000.0, 550000.0, 999)), "Small loan amount")
  {
    SmallLoan.FailureReasonStartsWithSmallLoanAmount();
    StartsWithContains(SmallLoan.FailureReason, "Small loan amount");
    assert SomeContains(DeclineReasons(LoanTerms(500000.0, 1000000.0, 749)), "Small loan amount") by {
      ReasonRecorded(SmallLoanAmountMustHaveValidCreditScoreForLtv, LoanTerms(500000.0, 1000000.0, 749), "Small loan amount");
    }
    assert SomeContains(DeclineReasons(LoanTerms(500000.0, 700000.0, 799)), "Small loan amount") by {
      ReasonRecorded(SmallLoanAmountMustHaveValidCreditScoreForLtv, LoanTerms(500000.0, 700000.0, 799), "Small loan amount");
    }
    assert SomeContains(DeclineReasons(LoanTerms(500000.0, 600000.0, 899)), "Small loan amount") by {
      ReasonRecorded(SmallLoanAmountMustHaveValidCreditScoreForLtv, LoanTerms(500000.0, 600000.0, 899), "Small loan amount");
    }
    assert SomeContains(DeclineReasons(LoanTerms(500000.0, 550000.0, 999)), "Small loan amount") by {
      ReasonRecorded(SmallLoanAmountMustHaveValidCreditScoreForLtv, LoanTerms(500000.0, 550000.0, 999), "Small loan amount");
    }
  }
}
