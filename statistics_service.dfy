/** Statistics over the decided applications in the repository: how many were approved and
    declined, the total amount of the approved loans, and the mean loan-to-value over every
    application, rendered with two decimals. The aggregates are functions of the applications'
    current values; the service class reads those values out of the repository's live list. */
module Statistics {
  import opened Models
  import opened Aggregates
  import opened TwoDecimalFormat
  import opened Repository

  predicate IsApproved(a: DecidedApplication) {
    a.loanApproved
  }

  predicate IsDeclined(a: DecidedApplication) {
    !a.loanApproved
  }

  function LoanAmountOf(a: DecidedApplication): real {
    a.terms.loanAmount
  }

  function LoanToValueOf(a: DecidedApplication): real {
    a.terms.LoanToValuePercent()
  }

  /** The loan amount counted towards the total: the amount if approved, otherwise nothing. */
  function WrittenAmountOf(a: DecidedApplication): real {
    if a.loanApproved then a.terms.loanAmount else 0.0
  }

  /** How many applications have the given approval status. */
  function StatusCount(apps: seq<DecidedApplication>, status: bool): nat {
    if status then CountWhere(apps, IsApproved) else CountWhere(apps, IsDeclined)
  }

  /** The applications grouped by approval status, each group replaced by its size: a status
      is a key exactly when at least one application has it, and its value is how many do.
      The map is empty exactly when there are no applications. */
  function TotalNumberOfApplicationsBySuccessStatus(apps: seq<DecidedApplication>): (groups: map<bool, nat>)
    ensures forall status :: status in groups <==> exists i :: 0 <= i < |apps| && apps[i].loanApproved == status
    ensures forall status :: status in groups ==> groups[status] == StatusCount(apps, status) > 0
    ensures |groups| == 0 <==> apps == []
  {
    var groups := map status | status in {false, true} && StatusCount(apps, status) > 0 :: StatusCount(apps, status);
    assert apps != [] ==> apps[0].loanApproved in groups;
    groups
  }

  /** Every application is approved or declined, so the two counts add up to the number of
      applications. */
  lemma CountsPartitionApplications(apps: seq<DecidedApplication>)
    ensures StatusCount(apps, true) + StatusCount(apps, false) == |apps|
  {
    CountWhereComplement(apps, IsApproved, IsDeclined);
  }

  /** The lookup with a fallback for an absent key. */
  function GetValueOrDefault(groups: map<bool, nat>, key: bool, defaultValue: nat): (v: nat)
    ensures key in groups ==> v == groups[key]
    ensures key !in groups ==> v == defaultValue
  {
    if key in groups then groups[key] else defaultValue
  }

  /** The sum of the loan amounts of the approved applications: each approved amount added
      up, with declined applications adding nothing. */
  function TotalNumberOfLoansWrittenToDate(apps: seq<DecidedApplication>): (total: real)
    ensures total == SumBy(apps, WrittenAmountOf)
  {
    SumByFilter(apps, IsApproved, LoanAmountOf, WrittenAmountOf);
    SumBy(Filter(apps, IsApproved), LoanAmountOf)
  }

  /** Adding an application adds its amount to the total if approved, and nothing otherwise. */
  lemma TotalAfterOneMore(apps: seq<DecidedApplication>, a: DecidedApplication)
    ensures TotalNumberOfLoansWrittenToDate(apps + [a])
      == TotalNumberOfLoansWrittenToDate(apps) + (if a.loanApproved then a.terms.loanAmount else 0.0)
  {
    SumByAppend(apps, [a], WrittenAmountOf);
  }

  /** The arithmetic mean of the loan-to-value percentages of all applications, approved and
      declined alike. */
  function MeanLoanToValueRatio(apps: seq<DecidedApplication>): (mean: real)
    requires apps != []
    ensures mean * |apps| as real == SumBy(apps, LoanToValueOf)
  {
    SumBy(apps, LoanToValueOf) / |apps| as real
  }

  /** The mean lies within any bounds that every application's loan-to-value lies within. */
  lemma MeanWithinBounds(apps: seq<DecidedApplication>, lo: real, hi: real)
    requires apps != []
    requires forall i :: 0 <= i < |apps| ==> lo <= LoanToValueOf(apps[i]) <= hi
    ensures lo <= MeanLoanToValueRatio(apps) <= hi
  {
    SumByBounds(apps, LoanToValueOf, lo, hi);
    QuotientBounds(SumBy(apps, LoanToValueOf), |apps| as real, lo, hi);
  }

  /** A quotient by n of a value between n * lo and n * hi lies between lo and hi. */
  lemma QuotientBounds(sum: real, n: real, lo: real, hi: real)
    requires n > 0.0
    requires n * lo <= sum <= n * hi
    ensures lo <= sum / n <= hi
  {
    var m := sum / n;
    assert m * n == sum;
    MultiplyPreservesOrder(lo, m, n);
    MultiplyPreservesOrder(m, hi, n);
  }

  /** The statistics: approved count, declined count, total approved amount and mean
      loan-to-value as two-decimal text. With no applications all four are zero, the mean
      written "0.00" rather than computed. */
  function StatisticsOf(apps: seq<DecidedApplication>): (stats: (int, int, real, string))
    ensures apps == [] ==> stats == (0, 0, 0.0, "0.00")
    ensures stats.0 == StatusCount(apps, true) && stats.1 == StatusCount(apps, false)
    ensures stats.0 + stats.1 == |apps|
    ensures stats.2 == TotalNumberOfLoansWrittenToDate(apps)
    ensures apps != [] ==> stats.3 == FormatF2(MeanLoanToValueRatio(apps))
  {
    var groups := TotalNumberOfApplicationsBySuccessStatus(apps);
    CountsPartitionApplications(apps);
    if |groups| == 0 then
      (0, 0, 0.0, "0.00")
    else
      (GetValueOrDefault(groups, true, 0), GetValueOrDefault(groups, false, 0),
       TotalNumberOfLoansWrittenToDate(apps), FormatF2(MeanLoanToValueRatio(apps)))
  }

  /** The statistics do not depend on the order in which the applications were stored. */
  lemma StatisticsIgnoreOrder(apps: seq<DecidedApplication>, reordered: seq<DecidedApplication>)
    requires multiset(apps) == multiset(reordered)
    ensures StatisticsOf(apps) == StatisticsOf(reordered)
  {
    assert |apps| == |multiset(apps)| == |reordered|;
    CountWherePermutation(apps, reordered, IsApproved);
    CountWherePermutation(apps, reordered, IsDeclined);
    SumByPermutation(apps, reordered, WrittenAmountOf);
    SumByPermutation(apps, reordered, LoanToValueOf);
  }

  /** The record form of the statistics, with named fields. */
  datatype StatisticsResult = StatisticsResult(
    numberOfApprovedLoans: int,
    numberOfDeclinedLoans: int,
    totalValueOfLoansWritten: real,
    meanAverageLoanToValueRatio: string)

  /** The record holds the four statistics unchanged, each in its named field. */
  function StatisticsResultOf(apps: seq<DecidedApplication>): (r: StatisticsResult)
    ensures r.numberOfApprovedLoans + r.numberOfDeclinedLoans == |apps|
    ensures (r.numberOfApprovedLoans, r.numberOfDeclinedLoans, r.totalValueOfLoansWritten,
             r.meanAverageLoanToValueRatio) == StatisticsOf(apps)
  {
    var (approved, declined, total, mean) := StatisticsOf(apps);
    StatisticsResult(approved, declined, total, mean)
  }

  /** The current values of the stored applications, in list order. */
  function Snapshot(list: seq<LoanApplication>): (apps: seq<DecidedApplication>)
    reads set a | a in list
    ensures |apps| == |list|
    ensures forall i :: 0 <= i < |list| ==> apps[i] == list[i].Decided()
  {
    if list == [] then [] else [list[0].Decided()] + Snapshot(list[1..])
  }

  class StatisticsService {
    const loanRepository: InMemoryLoanRepository

    constructor (loanRepository: InMemoryLoanRepository)
      ensures this.loanRepository == loanRepository
    {
      this.loanRepository := loanRepository;
    }

    /** The statistics of the applications stored right now, read through the live list. */
    method GetStatistics() returns (stats: (int, int, real, string))
      ensures stats == StatisticsOf(Snapshot(loanRepository.loanApplications.elements))
    {
      var list := loanRepository.GetLoanApplications();
      stats := StatisticsOf(Snapshot(list.elements));
    }

    /** The same four values as a record. */
    method GetStatisticsAsObject() returns (result: StatisticsResult)
      ensures result == StatisticsResultOf(Snapshot(loanRepository.loanApplications.elements))
    {
      var stats := GetStatistics();
      var (approved, declined, total, mean) := stats;
      result := StatisticsResult(approved, declined, total, mean);
    }
  }
}
