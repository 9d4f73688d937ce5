/** The statistics of the application sets used by the statistics tests, each application
    decided by the lending policy. */
module StatisticsScenarios {
  import opened Models
  import opened Aggregates
  import opened TwoDecimalFormat
  import opened LoanEvaluation
  import opened Statistics

  /** The policy's verdicts on the mixed set: LTV 50 and 40 with score 800 pass; LTV exactly
      60 needs 800 so score 700 fails; a large loan needs 950 so score 900 fails. */
  lemma MixedDecisions()
    ensures Decide(LoanTerms(500000.0, 1000000.0, 800)) == DecidedApplication(LoanTerms(500000.0, 1000000.0, 800), true)
    ensures Decide(LoanTerms(400000.0, 1000000.0, 800)) == DecidedApplication(LoanTerms(400000.0, 1000000.0, 800), true)
    ensures Decide(LoanTerms(600000.0, 1000000.0, 700)) == DecidedApplication(LoanTerms(600000.0, 1000000.0, 700), false)
    ensures Decide(LoanTerms(1000000.0, 1500000.0, 900)) == DecidedApplication(LoanTerms(1000000.0, 1500000.0, 900), false)
  {
    ApprovedIffEveryRuleHolds(LoanTerms(500000.0, 1000000.0, 800));
    ApprovedIffEveryRuleHolds(LoanTerms(400000.0, 1000000.0, 800));
    ApprovedIffEveryRuleHolds(LoanTerms(600000.0, 1000000.0, 700));
    ApprovedIffEveryRuleHolds(LoanTerms(1000000.0, 1500000.0, 900));
  }

  /** Two approved applications followed by two declined ones split down the middle. */
  lemma ApprovedThenDeclinedFilters(a: DecidedApplication, b: DecidedApplication, c: DecidedApplication, d: DecidedApplication)
    requires a.loanApproved && b.loanApproved && !c.loanApproved && !d.loanApproved
    ensures Filter([a, b, c, d], IsApproved) == [a, b]
    ensures Filter([a, b, c, d], IsDeclined) == [c, d]
  {
    assert [a, b, c, d] == [a, b] + [c, d];
    FilterAppend([a, b], [c, d], IsApproved);
    FilterAppend([a, b], [c, d], IsDeclined);
    FilterOfPair(a, b, IsApproved);
    FilterOfPair(c, d, IsApproved);
    FilterOfPair(a, b, IsDeclined);
    FilterOfPair(c, d, IsDeclined);
  }

  /** The statistics of two approved applications followed by two declined ones: the total
      holds the first two amounts only, while the mean takes in all four loan-to-values. */
  lemma ApprovedThenDeclinedStatistics(a: DecidedApplication, b: DecidedApplication, c: DecidedApplication, d: DecidedApplication)
    requires a.loanApproved && b.loanApproved && !c.loanApproved && !d.loanApproved
    ensures StatisticsOf([a, b, c, d]) == (2, 2, LoanAmountOf(a) + LoanAmountOf(b),
      FormatF2((LoanToValueOf(a) + LoanToValueOf(b) + LoanToValueOf(c) + LoanToValueOf(d)) / 4.0))
    ensures SumBy([a, b, c, d], LoanAmountOf) == LoanAmountOf(a) + LoanAmountOf(b) + LoanAmountOf(c) + LoanAmountOf(d)
  {
    ApprovedThenDeclinedFilters(a, b, c, d);
    SumByFour(a, b, c, d, WrittenAmountOf);
    SumByFour(a, b, c, d, LoanAmountOf);
    SumByFour(a, b, c, d, LoanToValueOf);
  }

  /** The mixed set decided by the policy and then summarised: two approved, two declined, a
      total of the two approved amounts only, and the mean of 50, 40, 60 and 66.67 rendered
      "54.17". All four amounts together come to 2,500,000. */
  lemma MixedApplications()
    ensures var apps := [
        Decide(LoanTerms(500000.0, 1000000.0, 800)),
        Decide(LoanTerms(400000.0, 1000000.0, 800)),
        Decide(LoanTerms(600000.0, 1000000.0, 700)),
        Decide(LoanTerms(1000000.0, 1500000.0, 900))];
      && StatisticsOf(apps) == (2, 2, 900000.0, "54.17")
      && SumBy(apps, LoanAmountOf) == 2500000.0
  {
    MixedDecisions();
    var a := DecidedApplication(LoanTerms(500000.0, 1000000.0, 800), true);
    var b := DecidedApplication(LoanTerms(400000.0, 1000000.0, 800), true);
    var c := DecidedApplication(LoanTerms(600000.0, 1000000.0, 700), false);
    var d := DecidedApplication(LoanTerms(1000000.0, 1500000.0, 900), false);
    assert LoanToValueOf(a) == 50.0 && LoanToValueOf(b) == 40.0;
    assert LoanToValueOf(c) == 60.0 && LoanToValueOf(d) == 200.0 / 3.0;
    ApprovedThenDeclinedStatistics(a, b, c, d);
    assert (50.0 + 40.0 + 60.0 + 200.0 / 3.0) / 4.0 == 650.0 / 12.0;
    RendersMixedMean();
  }

  /** The policy's verdicts on the large-numbers set: a large loan with score 950 and LTV
      33.33 passes; a large loan at LTV 66.67 fails the large-loan rule; a small loan with
      score 900 at LTV 33.33 passes. */
  lemma LargeNumberDecisions()
    ensures Decide(LoanTerms(1000000.0, 3000000.0, 950)) == DecidedApplication(LoanTerms(1000000.0, 3000000.0, 950), true)
    ensures Decide(LoanTerms(1500000.0, 2250000.0, 950)) == DecidedApplication(LoanTerms(1500000.0, 2250000.0, 950), false)
    ensures Decide(LoanTerms(999999.0, 3000000.0, 900)) == DecidedApplication(LoanTerms(999999.0, 3000000.0, 900), true)
  {
    ApprovedIffEveryRuleHolds(LoanTerms(1000000.0, 3000000.0, 950));
    ApprovedIffEveryRuleHolds(LoanTerms(1500000.0, 2250000.0, 950));
    ApprovedIffEveryRuleHolds(LoanTerms(999999.0, 3000000.0, 900));
  }

  /** An approved, a declined and an approved application split into the outer two and the
      middle one. */
  lemma ApprovedDeclinedApprovedFilters(a: DecidedApplication, b: DecidedApplication, c: DecidedApplication)
    requires a.loanApproved && !b.loanApproved && c.loanApproved
    ensures Filter([a, b, c], IsApproved) == [a, c]
    ensures Filter([a, b, c], IsDeclined) == [b]
  {
    assert [a, b, c] == [a, b] + [c];
    assert [c][1..] == [];
    FilterAppend([a, b], [c], IsApproved);
    FilterAppend([a, b], [c], IsDeclined);
    FilterOfPair(a, b, IsApproved);
    FilterOfPair(a, b, IsDeclined);
  }

  /** An approved, a declined and an approved application: counts (2, 1), a total of the
      first and last amounts, and the mean of all three loan-to-values. */
  lemma ApprovedDeclinedApprovedStatistics(a: DecidedApplication, b: DecidedApplication, c: DecidedApplication)
    requires a.loanApproved && !b.loanApproved && c.loanApproved
    ensures StatisticsOf([a, b, c]) == (2, 1, LoanAmountOf(a) + LoanAmountOf(c),
      FormatF2((LoanToValueOf(a) + LoanToValueOf(b) + LoanToValueOf(c)) / 3.0))
    ensures SumBy([a, b, c], LoanAmountOf) == LoanAmountOf(a) + LoanAmountOf(b) + LoanAmountOf(c)
  {
    ApprovedDeclinedApprovedFilters(a, b, c);
    SumByTriple(a, b, c, WrittenAmountOf);
    SumByTriple(a, b, c, LoanAmountOf);
    SumByTriple(a, b, c, LoanToValueOf);
  }

  /** The large-numbers set decided by the policy and then summarised: two approved, one
      declined, a total of 1,999,999 from the two approved amounts, and the mean of 33.33,
      66.67 and 33.3333 rendered "44.44". All three amounts together come to 3,499,999. */
  lemma LargeNumbers()
    ensures var apps := [
        Decide(LoanTerms(1000000.0, 3000000.0, 950)),
        Decide(LoanTerms(1500000.0, 2250000.0, 950)),
        Decide(LoanTerms(999999.0, 3000000.0, 900))];
      && StatisticsOf(apps) == (2, 1, 1999999.0, "44.44")
      && SumBy(apps, LoanAmountOf) == 3499999.0
  {
    LargeNumberDecisions();
    var a := DecidedApplication(LoanTerms(1000000.0, 3000000.0, 950), true);
    var b := DecidedApplication(LoanTerms(1500000.0, 2250000.0, 950), false);
    var c := DecidedApplication(LoanTerms(999999.0, 3000000.0, 900), true);
    assert LoanToValueOf(a) == 100.0 / 3.0 && LoanToValueOf(b) == 200.0 / 3.0;
    assert LoanToValueOf(c) == 33.3333;
    ApprovedDeclinedApprovedStatistics(a, b, c);
    assert (100.0 / 3.0 + 200.0 / 3.0 + 33.3333) / 3.0 == 133.3333 / 3.0;
    RendersLargeNumbersMean();
  }

  /** The statistics of one application: its own verdict, its amount if approved, and its
      own loan-to-value. */
  lemma StatisticsOfOne(a: DecidedApplication)
    ensures StatisticsOf([a]) == (
      if a.loanApproved then 1 else 0,
      if a.loanApproved then 0 else 1,
      WrittenAmountOf(a),
      FormatF2(LoanToValueOf(a)))
  {
    var apps := [a];
    assert apps[1..] == [];
    assert Filter(apps, IsApproved) == if a.loanApproved then [a] else [];
    assert Filter(apps, IsDeclined) == if a.loanApproved then [] else [a];
    assert SumBy(apps, WrittenAmountOf) == WrittenAmountOf(a);
    assert SumBy(apps, LoanToValueOf) == LoanToValueOf(a) + SumBy([], LoanToValueOf);
    assert MeanLoanToValueRatio(apps) == LoanToValueOf(a);
  }

  /** The statistics of two applications: the verdicts counted, the approved amounts added,
      and the mean of the two loan-to-values. */
  lemma StatisticsOfTwo(a: DecidedApplication, b: DecidedApplication)
    ensures StatisticsOf([a, b]) == (
      (if a.loanApproved then 1 else 0) + (if b.loanApproved then 1 else 0),
      (if a.loanApproved then 0 else 1) + (if b.loanApproved then 0 else 1),
      WrittenAmountOf(a) + WrittenAmountOf(b),
      FormatF2((LoanToValueOf(a) + LoanToValueOf(b)) / 2.0))
  {
    PairCounts(a, b);
    PairSums(a, b);
  }

  /** How many of two applications each status selects. */
  lemma PairCounts(a: DecidedApplication, b: DecidedApplication)
    ensures StatusCount([a, b], true) == (if a.loanApproved then 1 else 0) + (if b.loanApproved then 1 else 0)
    ensures StatusCount([a, b], false) == (if a.loanApproved then 0 else 1) + (if b.loanApproved then 0 else 1)
  {
    FilterOfPair(a, b, IsApproved);
    FilterOfPair(a, b, IsDeclined);
  }

  /** The written total and the loan-to-value sum of two applications. */
  lemma PairSums(a: DecidedApplication, b: DecidedApplication)
    ensures TotalNumberOfLoansWrittenToDate([a, b]) == WrittenAmountOf(a) + WrittenAmountOf(b)
    ensures SumBy([a, b], LoanToValueOf) == LoanToValueOf(a) + LoanToValueOf(b)
  {
    SumByPair(a, b, WrittenAmountOf);
    SumByPair(a, b, LoanToValueOf);
  }

  /** The policy's verdicts on the applications of the other two-application scenarios. */
  lemma PairDecisions()
    ensures Decide(LoanTerms(300000.0, 1000000.0, 800)) == DecidedApplication(LoanTerms(300000.0, 1000000.0, 800), true)
    ensures Decide(LoanTerms(500000.0, 1000000.0, 800)) == DecidedApplication(LoanTerms(500000.0, 1000000.0, 800), true)
    ensures Decide(LoanTerms(50000.0, 1000000.0, 800)) == DecidedApplication(LoanTerms(50000.0, 1000000.0, 800), false)
    ensures Decide(LoanTerms(2000000.0, 1000000.0, 800)) == DecidedApplication(LoanTerms(2000000.0, 1000000.0, 800), false)
    ensures Decide(LoanTerms(300000.0, 1000000.0, 700)) == DecidedApplication(LoanTerms(300000.0, 1000000.0, 700), false)
  {
    ApprovedIffEveryRuleHolds(LoanTerms(300000.0, 1000000.0, 800));
    ApprovedIffEveryRuleHolds(LoanTerms(500000.0, 1000000.0, 800));
    ApprovedIffEveryRuleHolds(LoanTerms(50000.0, 1000000.0, 800));
    ApprovedIffEveryRuleHolds(LoanTerms(2000000.0, 1000000.0, 800));
    ApprovedIffEveryRuleHolds(LoanTerms(300000.0, 1000000.0, 700));
  }

  /** Two approved applications with LTV 30 and 50. */
  lemma OnlyApprovedApplications()
    ensures StatisticsOf([
        Decide(LoanTerms(300000.0, 1000000.0, 800)),
        Decide(LoanTerms(500000.0, 1000000.0, 800))]) == (2, 0, 800000.0, "40.00")
  {
    PairDecisions();
    var a, b := DecidedApplication(LoanTerms(300000.0, 1000000.0, 800), true),
      DecidedApplication(LoanTerms(500000.0, 1000000.0, 800), true);
    assert LoanToValueOf(a) == 30.0 && LoanToValueOf(b) == 50.0;
    StatisticsOfTwo(a, b);
    assert (30.0 + 50.0) / 2.0 == 40.0;
    RendersForty();
  }

  /** Two declined applications, below and above the general limit, with LTV 5 and 200: the
      total is zero, since no loan was written, while the two amounts come to 2,050,000. */
  lemma OnlyDeclinedApplications()
    ensures StatisticsOf([
        Decide(LoanTerms(50000.0, 1000000.0, 800)),
        Decide(LoanTerms(2000000.0, 1000000.0, 800))]) == (0, 2, 0.0, "102.50")
    ensures SumBy([
        Decide(LoanTerms(50000.0, 1000000.0, 800)),
        Decide(LoanTerms(2000000.0, 1000000.0, 800))], LoanAmountOf) == 2050000.0
  {
    PairDecisions();
    var a, b := DecidedApplication(LoanTerms(50000.0, 1000000.0, 800), false),
      DecidedApplication(LoanTerms(2000000.0, 1000000.0, 800), false);
    assert LoanToValueOf(a) == 5.0 && LoanToValueOf(b) == 200.0;
    StatisticsOfTwo(a, b);
    assert SumBy([a, b], LoanAmountOf) == 2050000.0 by {
      SumByPair(a, b, LoanAmountOf);
    }
    assert (5.0 + 200.0) / 2.0 == 102.5;
    RendersHundredAndTwoAndAHalf();
  }

  /** One approved application (LTV 50) and one declined for its score at LTV 30: the record
      carries a total of 500,000, the approved amount alone, while the two amounts come to
      800,000. */
  lemma OneApprovedOneDeclinedAsRecord()
    ensures StatisticsResultOf([
        Decide(LoanTerms(500000.0, 1000000.0, 800)),
        Decide(LoanTerms(300000.0, 1000000.0, 700))]) == StatisticsResult(1, 1, 500000.0, "40.00")
    ensures SumBy([
        Decide(LoanTerms(500000.0, 1000000.0, 800)),
        Decide(LoanTerms(300000.0, 1000000.0, 700))], LoanAmountOf) == 800000.0
  {
    PairDecisions();
    var a, b := DecidedApplication(LoanTerms(500000.0, 1000000.0, 800), true),
      DecidedApplication(LoanTerms(300000.0, 1000000.0, 700), false);
    assert LoanToValueOf(a) == 50.0 && LoanToValueOf(b) == 30.0;
    StatisticsOfTwo(a, b);
    assert SumBy([a, b], LoanAmountOf) == 800000.0 by {
      SumByPair(a, b, LoanAmountOf);
    }
    assert (50.0 + 30.0) / 2.0 == 40.0;
    RendersForty();
  }

  /** The policy approves each application of the single-application scenarios. */
  lemma SingleDecisions()
    ensures Decide(LoanTerms(100000.0, 500000.0, 800)) == DecidedApplication(LoanTerms(100000.0, 500000.0, 800), true)
    ensures Decide(LoanTerms(500000.0, 1000000.0, 800)) == DecidedApplication(LoanTerms(500000.0, 1000000.0, 800), true)
    ensures Decide(LoanTerms(750000.0, 1000000.0, 800)) == DecidedApplication(LoanTerms(750000.0, 1000000.0, 800), true)
    ensures Decide(LoanTerms(333333.0, 1000000.0, 800)) == DecidedApplication(LoanTerms(333333.0, 1000000.0, 800), true)
  {
    ApprovedIffEveryRuleHolds(LoanTerms(100000.0, 500000.0, 800));
    ApprovedIffEveryRuleHolds(LoanTerms(500000.0, 1000000.0, 800));
    ApprovedIffEveryRuleHolds(LoanTerms(750000.0, 1000000.0, 800));
    ApprovedIffEveryRuleHolds(LoanTerms(333333.0, 1000000.0, 800));
  }

  /** The mean of a single application is its own loan-to-value, rendered with two decimals. */
  lemma SingleApplicationMeans()
    ensures StatisticsOf([Decide(LoanTerms(100000.0, 500000.0, 800))]).3 == "20.00"
    ensures StatisticsOf([Decide(LoanTerms(500000.0, 1000000.0, 800))]).3 == "50.00"
    ensures StatisticsOf([Decide(LoanTerms(750000.0, 1000000.0, 800))]).3 == "75.00"
    ensures StatisticsOf([Decide(LoanTerms(333333.0, 1000000.0, 800))]).3 == "33.33"
  {
    SingleDecisions();
    var a0 := DecidedApplication(LoanTerms(100000.0, 500000.0, 800), true);
    var a1 := DecidedApplication(LoanTerms(500000.0, 1000000.0, 800), true);
    var a2 := DecidedApplication(LoanTerms(750000.0, 1000000.0, 800), true);
    var a3 := DecidedApplication(LoanTerms(333333.0, 1000000.0, 800), true);
    assert LoanToValueOf(a0) == 20.0 && LoanToValueOf(a1) == 50.0;
    assert LoanToValueOf(a2) == 75.0 && LoanToValueOf(a3) == 33.3333;
    StatisticsOfOne(a0);
    StatisticsOfOne(a1);
    StatisticsOfOne(a2);
    StatisticsOfOne(a3);
    RendersTwenty();
    RendersFifty();
    RendersSeventyFive();
    RendersOneThird();
  }
}
