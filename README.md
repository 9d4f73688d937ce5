# Lending platform decision core, modelled in Dafny

The lending platform takes a loan application (loan amount, secured asset value, applicant's
credit score), derives its loan-to-value percentage (LTV), and decides it by running four
policy rules through a rules engine. Every failing rule records one decline reason. The
application is approved exactly when no reason was recorded. Decided applications are kept
in an in-memory repository. A statistics service reports the number of approved and
declined applications, the total amount of approved loans, and the mean LTV over all
applications as text with two decimals.

Module layout, following the program:

- `Wrappers`: `Option`, `Result` and `Outcome` for absent arguments and thrown errors.
- `Models` (`loan_application.dfy`): the `LoanApplication` class. It has three immutable
  inputs and the two outcome fields that the engine and the constructor update. The value
  `LoanTerms` holds the inputs and computes the LTV.
- `LoanApplicationConstants`: the large-loan threshold. Two rules share this one value.
- One module per policy rule: `ApplicantCreditScoreMustBeValidRule`,
  `LoanAmountMustBeWithinGeneralLimitRule`, `LargeLoanValueRule` and
  `SmallLoanAmountMustHaveValidCreditScoreForLtv`. Each has its verdict, its message and
  its failure hook.
- `Rules`: the rule interface as a closed datatype over the four rules, with dispatch.
- `Engine`: the `RulesEngine` class: its rule list, `AddRule`, and `Execute`.
  `Execute` is a loop proved against `FailureReasons`.
- `LoanEvaluation`: the body of the `LoanApplication` constructor (build the engine, run
  it, set the verdict). It also holds the properties of the four-rule policy as a whole.
- `Repository`: `InMemoryLoanRepository`. It owns one live list and hands out that list
  itself.
- `Aggregates`, `TwoDecimalFormat`, `Statistics`: the query operators the statistics use,
  the culture-independent `F2` number format, and `StatisticsService`.
- `StatisticsScenarios`, and the `Tested…` lemmas inside the other modules: the inputs of
  the repository's unit tests, decided and summarised by the model.

Amounts are C# `decimal` values. The model uses exact `real` numbers for them.

The code and its statistics tests disagree about the total. The tests at
`LendingPlatform.Tests/Services/StatisticsServiceTests.cs` lines 52, 100, 124 and 177
expect the sum of all loan amounts: 2,500,000, 2,050,000, 800,000 and 3,499,999. The code at
`LendingPlatform.ConsoleApp/Services/StatisticsService.cs:11-13` sums approved
applications only. The name of that value ("loans written") agrees with the code. The
model follows the code. `StatisticsScenarios.MixedApplications`,
`OnlyDeclinedApplications`, `OneApprovedOneDeclinedAsRecord` and `LargeNumbers` prove
that the code gives 900,000, 0, 500,000 and 1,999,999 for those four sets. The same
lemmas prove that all the amounts of each set add up to the figure the test expects.

## Model

| member | source | states |
|---|---|---|
| `Models.LoanTerms.LoanToValuePercent` | LendingPlatform.ConsoleApp/Entities/LoanApplication.cs:10 | A zero asset value gives LTV 0 instead of a division by zero. Otherwise LTV times the asset value is 100 times the loan amount. Non-negative inputs give a non-negative LTV. |
| `Models.LoanApplication.constructor` | LendingPlatform.ConsoleApp/Entities/LoanApplication.cs:14-21 | The three inputs are stored unchanged. The application starts with no decline reason and is not yet approved. |
| `Models.LtvAtMostIff` | LendingPlatform.ConsoleApp/Entities/LoanApplication.cs:10 | With a positive asset value, "LTV ≤ b" holds exactly when amount·100 ≤ b·asset. |
| `Models.LtvBelowIff` | LendingPlatform.ConsoleApp/Entities/LoanApplication.cs:10 | With a positive asset value, "LTV < b" holds exactly when amount·100 < b·asset. |
| `Models.TestedLoanToValues` | LendingPlatform.Tests/Entities/LoanApplicationTests.cs:85-104 | The tested LTVs: 50, within 0.01 of 66.67, 90, and 0 for a zero asset value. |
| `ApplicantCreditScoreMustBeValidRule.IsSatisfied` | LendingPlatform.ConsoleApp/Rules/ApplicantCreditScoreMustBeValidRule.cs:7-13 | The verdict: a score from 1 to 999 inclusive passes. Its properties are the lemmas below. |
| `ApplicantCreditScoreMustBeValidRule.ExecuteFailure` | LendingPlatform.ConsoleApp/Rules/ApplicantCreditScoreMustBeValidRule.cs:15-18 | Appends exactly this rule's message after the earlier reasons. The approval flag is untouched. |
| `ApplicantCreditScoreMustBeValidRule.VerdictDependsOnlyOnCreditScore` | LendingPlatform.ConsoleApp/Rules/ApplicantCreditScoreMustBeValidRule.cs:9-13 | Two applications with equal credit scores get the same verdict, whatever their amounts and asset values. |
| `ApplicantCreditScoreMustBeValidRule.BoundsAreInclusive` | LendingPlatform.ConsoleApp/Rules/ApplicantCreditScoreMustBeValidRule.cs:7-12 | Scores 1 and 999 pass. Scores 0 and 1000 fail. |
| `ApplicantCreditScoreMustBeValidRule.PassingScoresAreContiguous` | LendingPlatform.ConsoleApp/Rules/ApplicantCreditScoreMustBeValidRule.cs:12 | Any score between two passing scores passes. |
| `ApplicantCreditScoreMustBeValidRule.TestedScores` | LendingPlatform.Tests/Rules/ApplicantCreditScoreMustBeValidRuleTests.cs:13-43 | Scores 1, 500, 999 and 750 pass. Scores 0, 1000, -1 and 1500 fail. |
| `ApplicantCreditScoreMustBeValidRule.FailureReasonNamesRange` | LendingPlatform.ConsoleApp/Rules/ApplicantCreditScoreMustBeValidRule.cs:17 | The message contains "credit score must be between 1 and 999". |
| `LoanAmountMustBeWithinGeneralLimitRule.IsSatisfied` | LendingPlatform.ConsoleApp/Rules/LoanAmountMustBeWithinGeneralLimitRule.cs:7-13 | The verdict: an amount from 100,000 to 1,500,000 inclusive passes. Its properties are the lemmas below. |
| `LoanAmountMustBeWithinGeneralLimitRule.ExecuteFailure` | LendingPlatform.ConsoleApp/Rules/LoanAmountMustBeWithinGeneralLimitRule.cs:15-18 | Appends exactly this rule's message after the earlier reasons. The approval flag is untouched. |
| `LoanAmountMustBeWithinGeneralLimitRule.VerdictDependsOnlyOnLoanAmount` | LendingPlatform.ConsoleApp/Rules/LoanAmountMustBeWithinGeneralLimitRule.cs:10-13 | Equal loan amounts get the same verdict, whatever the asset value and the score. |
| `LoanAmountMustBeWithinGeneralLimitRule.LimitsAreInclusive` | LendingPlatform.ConsoleApp/Rules/LoanAmountMustBeWithinGeneralLimitRule.cs:7-12 | 100,000 and 1,500,000 pass. Any amount below the first or above the second fails. |
| `LoanAmountMustBeWithinGeneralLimitRule.TestedAmounts` | LendingPlatform.Tests/Rules/LoanAmountMustBeWithinGeneralLimitRuleTests.cs:13-42 | Amounts 100,000, 500,000 and 1,500,000 pass. Amounts 99,999, 1,500,001, 0 and 50,000 fail. |
| `LoanAmountMustBeWithinGeneralLimitRule.FailureReasonNamesBothLimits` | LendingPlatform.ConsoleApp/Rules/LoanAmountMustBeWithinGeneralLimitRule.cs:17 | The message starts with "Loan amount must be between". It contains "£100,000.00" and "£1,500,000.00". |
| `LargeLoanValueRule.IsSatisfied` | LendingPlatform.ConsoleApp/Rules/LargeLoanValueRule.cs:8-21 | The verdict: a loan below 1,000,000 passes; a larger one needs a score of at least 950 and an LTV of at most 60. Its properties are the lemmas below. |
| `LargeLoanValueRule.ExecuteFailure` | LendingPlatform.ConsoleApp/Rules/LargeLoanValueRule.cs:23-26 | Appends exactly this rule's message after the earlier reasons. The approval flag is untouched. |
| `LargeLoanValueRule.SmallLoansAlwaysPass` | LendingPlatform.ConsoleApp/Rules/LargeLoanValueRule.cs:11-21 | A loan below 1,000,000 passes whatever its LTV and score. |
| `LargeLoanValueRule.LargeLoanNeedsScoreAndLtv` | LendingPlatform.ConsoleApp/Rules/LargeLoanValueRule.cs:8-17 | A loan of 1,000,000 or more passes exactly when its score is at least 950 and its LTV is at most 60. |
| `LargeLoanValueRule.CrossMultipliedForm` | LendingPlatform.ConsoleApp/Rules/LargeLoanValueRule.cs:13-17 | With a positive asset value, the verdict is a comparison without division. |
| `LargeLoanValueRule.MonotoneInCreditScore` | LendingPlatform.ConsoleApp/Rules/LargeLoanValueRule.cs:16-17 | Raising the score never turns a pass into a fail. |
| `LargeLoanValueRule.TestedCases` | LendingPlatform.Tests/Rules/LargeLoanValueRuleTests.cs:13-56 | Every tested case has its expected verdict. This includes the inclusive LTV of exactly 60. |
| `LargeLoanValueRule.FailureReasonStartsWithLargeLoanValue` | LendingPlatform.ConsoleApp/Rules/LargeLoanValueRule.cs:25 | The message starts with "Large loan value". |
| `SmallLoanAmountMustHaveValidCreditScoreForLtv.IsSatisfied` | LendingPlatform.ConsoleApp/Rules/SmallLoanAmountMustHaveValidCreditScoreForLtv.cs:7-23 | The verdict: a loan of 1,000,000 or more passes; a smaller one goes through the ordered LTV switch. Its properties are the lemmas below. |
| `SmallLoanAmountMustHaveValidCreditScoreForLtv.ExecuteFailure` | LendingPlatform.ConsoleApp/Rules/SmallLoanAmountMustHaveValidCreditScoreForLtv.cs:25-28 | Appends exactly this rule's message after the earlier reasons. The approval flag is untouched. |
| `SmallLoanAmountMustHaveValidCreditScoreForLtv.SwitchMatchesBandTable` | LendingPlatform.ConsoleApp/Rules/SmallLoanAmountMustHaveValidCreditScoreForLtv.cs:13-19 | The ordered switch gives the same verdict as a table of bands: below 60 needs 750, below 80 needs 800, below 90 needs 900, and no band covers 90 or more. |
| `SmallLoanAmountMustHaveValidCreditScoreForLtv.SelectedBand` | LendingPlatform.ConsoleApp/Rules/SmallLoanAmountMustHaveValidCreditScoreForLtv.cs:13-19 | In any table of bands with rising bounds and scores, an LTV is held to band k's score exactly when it lies below band k's bound and at or above the previous band's bound. |
| `SmallLoanAmountMustHaveValidCreditScoreForLtv.EveryLtvInExactlyOneBand` | LendingPlatform.ConsoleApp/Rules/SmallLoanAmountMustHaveValidCreditScoreForLtv.cs:13-19 | The policy's table leaves exactly the LTVs of 90 or more uncovered, and holds every other LTV to the score of the one band it lies in. |
| `SmallLoanAmountMustHaveValidCreditScoreForLtv.LargeLoansAlwaysPass` | LendingPlatform.ConsoleApp/Rules/SmallLoanAmountMustHaveValidCreditScoreForLtv.cs:9-22 | A loan of 1,000,000 or more passes whatever its LTV and score. |
| `SmallLoanAmountMustHaveValidCreditScoreForLtv.SmallLoanBands` | LendingPlatform.ConsoleApp/Rules/SmallLoanAmountMustHaveValidCreditScoreForLtv.cs:13-19 | For a small loan, each band passes exactly at its minimum score. LTV 90 or more always fails. LTV exactly 60 falls in the 800 band. |
| `SmallLoanAmountMustHaveValidCreditScoreForLtv.MonotoneInCreditScore` | LendingPlatform.ConsoleApp/Rules/SmallLoanAmountMustHaveValidCreditScoreForLtv.cs:15-17 | Raising the score never turns a pass into a fail. |
| `SmallLoanAmountMustHaveValidCreditScoreForLtv.MonotoneInLtv` | LendingPlatform.ConsoleApp/Rules/SmallLoanAmountMustHaveValidCreditScoreForLtv.cs:13-19 | Take two small loans with the same score. If the one with the higher LTV passes, so does the one with the lower LTV. |
| `SmallLoanAmountMustHaveValidCreditScoreForLtv.CrossMultipliedForm` | LendingPlatform.ConsoleApp/Rules/SmallLoanAmountMustHaveValidCreditScoreForLtv.cs:9-19 | With a positive asset value, the verdict is a comparison without division. |
| `SmallLoanAmountMustHaveValidCreditScoreForLtv.TestedCases` | LendingPlatform.Tests/Rules/SmallLoanAmountMustHaveValidCreditScoreForLtvTests.cs:13-92 | Every tested case has its expected verdict, including the three boundary rows. |
| `SmallLoanAmountMustHaveValidCreditScoreForLtv.FailureReasonStartsWithSmallLoanAmount` | LendingPlatform.ConsoleApp/Rules/SmallLoanAmountMustHaveValidCreditScoreForLtv.cs:27 | The message starts with "Small loan amount". |
| `Rules.IsSatisfied` | LendingPlatform.ConsoleApp/Rules/IRule.cs:6 | The verdict of a rule: dispatch to that rule's own verdict. |
| `Rules.FailureReason` | LendingPlatform.ConsoleApp/Rules/ApplicantCreditScoreMustBeValidRule.cs:17 | The message a rule records: each rule's own message (this one, and line 17, 25 and 27 of the other three rule files). |
| `Rules.ExecuteSuccess` | LendingPlatform.ConsoleApp/Rules/IRule.cs:8-11 | The default success hook leaves the reasons and the verdict unchanged. |
| `Rules.ExecuteFailure` | LendingPlatform.ConsoleApp/Rules/ApplicantCreditScoreMustBeValidRule.cs:15-18 | Each rule's failure hook appends exactly that rule's message, as this override and the other three rules' overrides do. |
| `Rules.FailureReasonsAreDistinct` | LendingPlatform.ConsoleApp/Entities/LoanApplication.cs:23-28 | Different rules record different messages. |
| `Engine.FailureReasons` | LendingPlatform.ConsoleApp/Rules/RulesEngine.cs:21-31 | There are at most as many reasons as rules. There is no reason exactly when every rule holds. |
| `Engine.FailureReasonsAppend` | LendingPlatform.ConsoleApp/Rules/RulesEngine.cs:21-31 | Running two lists in a row records the first list's reasons, then the second's. |
| `Engine.RunRule` | LendingPlatform.ConsoleApp/Rules/RulesEngine.cs:21-31 | One step of the loop. The rule's verdict picks the one hook that runs. A failing rule appends its message and nothing else changes. |
| `Engine.RulesEngine.constructor` | LendingPlatform.ConsoleApp/Rules/RulesEngine.cs:3-7 | The engine holds the given rules in order. |
| `Engine.RulesEngine.Create` | LendingPlatform.ConsoleApp/Rules/RulesEngine.cs:6-7 | An absent collection fails with an ArgumentNullException for "source". A present one gives an engine with those rules. |
| `Engine.RulesEngine.AddRule` | LendingPlatform.ConsoleApp/Rules/RulesEngine.cs:9-12 | The rule is appended after the existing ones. |
| `Engine.RulesEngine.Execute` | LendingPlatform.ConsoleApp/Rules/RulesEngine.cs:14-32 | An absent asset fails with an ArgumentNullException for "asset" before any rule runs. Otherwise exactly one hook runs per rule, in order, and the failing rules' messages are appended in rule order. The verdict is untouched. |
| `LoanEvaluation.DeclineReasons` | LendingPlatform.ConsoleApp/Entities/LoanApplication.cs:23-30 | The reasons the four policy rules record for the inputs. `DeclineReasonsInPolicyOrder` states them. |
| `LoanEvaluation.Decide` | LendingPlatform.ConsoleApp/Entities/LoanApplication.cs:14-32 | The decided application the inputs produce. `NewLoanApplication` is proved to produce it. |
| `LoanEvaluation.NewLoanApplication` | LendingPlatform.ConsoleApp/Entities/LoanApplication.cs:14-33 | A new application stores its inputs. Its reasons are those of the four policy rules. It is approved exactly when there are none. |
| `LoanEvaluation.DeclineReasonsInPolicyOrder` | LendingPlatform.ConsoleApp/Entities/LoanApplication.cs:23-30 | The reasons come in the order credit score, general limit, large loan, small loan. Each appears exactly when its rule fails. |
| `LoanEvaluation.LargeAndSmallNeverBothFail` | LendingPlatform.ConsoleApp/Rules/LargeLoanValueRule.cs:13-20 | The large-loan and small-loan rules split on the same threshold, so at least one of them holds. |
| `LoanEvaluation.AtMostThreeDistinctReasons` | LendingPlatform.ConsoleApp/Entities/LoanApplication.cs:23-30 | An application has at most three reasons, and no reason occurs twice. |
| `LoanEvaluation.ApprovedIffEveryRuleHolds` | LendingPlatform.ConsoleApp/Entities/LoanApplication.cs:30-32 | An application is approved exactly when all four rules hold. |
| `LoanEvaluation.ReasonRecorded` | LendingPlatform.ConsoleApp/Entities/LoanApplication.cs:30 | A failing rule's message, and any text within it, appears among the reasons. |
| `LoanEvaluation.TestedApprovals` | LendingPlatform.Tests/Entities/LoanApplicationTests.cs:10-133 | The applications the tests expect to be approved have no reason. |
| `LoanEvaluation.TestedLoanAmountDeclines` | LendingPlatform.Tests/Entities/LoanApplicationTests.cs:24-36 | Amounts 99,999, 1,500,001 and 0 are declined with a reason containing "Loan amount must be between". |
| `LoanEvaluation.TestedCreditScoreDeclines` | LendingPlatform.Tests/Entities/LoanApplicationTests.cs:39-51 | Scores 0, 1000 and -1 are declined with a reason containing "credit score must be between". |
| `LoanEvaluation.TestedLargeLoanDeclines` | LendingPlatform.Tests/Entities/LoanApplicationTests.cs:54-66 | The three tested large loans are declined with a reason containing "Large loan value". |
| `LoanEvaluation.TestedSmallLoanDeclines` | LendingPlatform.Tests/Entities/LoanApplicationTests.cs:69-82 | The four tested small loans are declined with a reason containing "Small loan amount". |
| `Repository.LoanApplicationList.constructor` | LendingPlatform.ConsoleApp/Services/ILoanRepository.cs:13 | A new list is empty. |
| `Repository.LoanApplicationList.Add` | LendingPlatform.ConsoleApp/Services/ILoanRepository.cs:17 | The item is appended after all earlier ones. |
| `Repository.InMemoryLoanRepository.constructor` | LendingPlatform.ConsoleApp/Services/ILoanRepository.cs:11-13 | A new repository owns a new, empty list. |
| `Repository.InMemoryLoanRepository.SaveLoanApplication` | LendingPlatform.ConsoleApp/Services/ILoanRepository.cs:15-18 | The application is stored after all earlier ones. Nothing else changes. |
| `Repository.InMemoryLoanRepository.GetLoanApplications` | LendingPlatform.ConsoleApp/Services/ILoanRepository.cs:20-23 | Returns the repository's own list, not a copy. |
| `Repository.ReturnedListSeesLaterSaves` | LendingPlatform.ConsoleApp/Services/ILoanRepository.cs:13-23 | The list handed out before a save is the repository's own list, and after the save it holds the earlier applications followed by the saved one. |
| `Repository.SaveAll` | LendingPlatform.Tests/Services/InMemoryLoanRepositoryTests.cs:101-125 | Saving applications one by one stores them in that order. |
| `Aggregates.Filter` | LendingPlatform.ConsoleApp/Services/StatisticsService.cs:11-12 | An element is kept exactly when it is in the input and satisfies the condition. |
| `Aggregates.CountWhere` | LendingPlatform.ConsoleApp/Services/StatisticsService.cs:7-9 | The count is positive exactly when some element satisfies the condition. |
| `Aggregates.CountWhereComplement` | LendingPlatform.ConsoleApp/Services/StatisticsService.cs:7-9 | A condition's count plus its negation's count is the length. |
| `Aggregates.CountWherePermutation` | LendingPlatform.ConsoleApp/Services/StatisticsService.cs:7-9 | Reordering the elements leaves every count unchanged. |
| `Aggregates.SumByPermutation` | LendingPlatform.ConsoleApp/Services/StatisticsService.cs:11-17 | Reordering the elements leaves every sum unchanged. |
| `Aggregates.SumByFilter` | LendingPlatform.ConsoleApp/Services/StatisticsService.cs:11-13 | Summing the selected elements equals summing every element with zero in place of the unselected ones. |
| `Aggregates.SumByBounds` | LendingPlatform.ConsoleApp/Services/StatisticsService.cs:15-17 | A sum of n terms, each between lo and hi, is between n·lo and n·hi. |
| `TwoDecimalFormat.RoundHalfAwayFromZero` | LendingPlatform.ConsoleApp/Services/StatisticsService.cs:30 | The result is within one half of the value. An exact half goes away from zero. |
| `TwoDecimalFormat.RoundingIsUnique` | LendingPlatform.ConsoleApp/Services/StatisticsService.cs:30 | No other integer meets that description. |
| `TwoDecimalFormat.RoundingIsSymmetric` | LendingPlatform.ConsoleApp/Services/StatisticsService.cs:30 | Rounding a negated value gives the negated rounding. |
| `TwoDecimalFormat.RenderHundredths` | LendingPlatform.ConsoleApp/Services/StatisticsService.cs:30 | The text ends with '.' and two digits. It starts with '-' exactly for a negative count. |
| `TwoDecimalFormat.FormatF2` | LendingPlatform.ConsoleApp/Services/StatisticsService.cs:30 | The '.' is third from the end. The text starts with '-' exactly when the value is at most -0.005, so that it rounds to a negative number of hundredths. |
| `TwoDecimalFormat.RenderRoundTrip` | LendingPlatform.ConsoleApp/Services/StatisticsService.cs:30 | Parsing the rendering gives back the count of hundredths. |
| `TwoDecimalFormat.RenderIsInjective` | LendingPlatform.ConsoleApp/Services/StatisticsService.cs:30 | Different counts of hundredths render differently. |
| `TwoDecimalFormat.FormatF2IsNearestHundredth` | LendingPlatform.ConsoleApp/Services/StatisticsService.cs:30 | The formatted text reads back as the value rounded to hundredths, with exact halves going away from zero. |
| `TwoDecimalFormat.WholeRendering` | LendingPlatform.ConsoleApp/Services/StatisticsService.cs:30 | A whole number renders as its digits followed by ".00". |
| `TwoDecimalFormat.RendersTwenty` | LendingPlatform.Tests/Services/StatisticsServiceTests.cs:183 | 20 renders as "20.00". |
| `TwoDecimalFormat.RendersForty` | LendingPlatform.Tests/Services/StatisticsServiceTests.cs:77 | 40 renders as "40.00". |
| `TwoDecimalFormat.RendersFifty` | LendingPlatform.Tests/Services/StatisticsServiceTests.cs:184 | 50 renders as "50.00". |
| `TwoDecimalFormat.RendersSeventyFive` | LendingPlatform.Tests/Services/StatisticsServiceTests.cs:185 | 75 renders as "75.00". |
| `TwoDecimalFormat.RendersOneThird` | LendingPlatform.Tests/Services/StatisticsServiceTests.cs:186 | 33.3333 renders as "33.33": the remainder below half a hundredth is dropped. |
| `TwoDecimalFormat.RendersMixedMean` | LendingPlatform.Tests/Services/StatisticsServiceTests.cs:53 | 650/12 renders as "54.17": two thirds of a hundredth round up. |
| `TwoDecimalFormat.RendersHundredAndTwoAndAHalf` | LendingPlatform.Tests/Services/StatisticsServiceTests.cs:101 | 102.5 renders as "102.50". |
| `TwoDecimalFormat.RendersLargeNumbersMean` | LendingPlatform.Tests/Services/StatisticsServiceTests.cs:178-179 | 133.3333/3 renders as "44.44", two digits after the point. |
| `Statistics.TotalNumberOfApplicationsBySuccessStatus` | LendingPlatform.ConsoleApp/Services/StatisticsService.cs:7-9 | A status is a key exactly when some application has it. Its value is that status's positive count. The map is empty exactly when there are no applications. |
| `Statistics.CountsPartitionApplications` | LendingPlatform.ConsoleApp/Services/StatisticsService.cs:27-28 | Approved count plus declined count is the number of applications. |
| `Statistics.GetValueOrDefault` | LendingPlatform.ConsoleApp/Services/StatisticsService.cs:27-28 | A present key gives its count. An absent key gives the default. |
| `Statistics.TotalNumberOfLoansWrittenToDate` | LendingPlatform.ConsoleApp/Services/StatisticsService.cs:11-13 | The total is each approved amount added up, with declined applications adding nothing. |
| `Statistics.TotalAfterOneMore` | LendingPlatform.ConsoleApp/Services/StatisticsService.cs:11-13 | One more application raises the total by its amount if it is approved. Otherwise the total stays the same. |
| `Statistics.MeanLoanToValueRatio` | LendingPlatform.ConsoleApp/Services/StatisticsService.cs:15-17 | The mean times the number of applications is the sum of all their LTVs, approved and declined alike. |
| `Statistics.MeanWithinBounds` | LendingPlatform.ConsoleApp/Services/StatisticsService.cs:15-17 | The mean LTV lies within any bounds that contain every application's LTV. |
| `Statistics.StatisticsOf` | LendingPlatform.ConsoleApp/Services/StatisticsService.cs:20-32 | No applications give (0, 0, 0, "0.00"). Otherwise the values are the approved count, the declined count, the approved total and the two-decimal mean LTV. The two counts add up to the number of applications. |
| `Statistics.StatisticsIgnoreOrder` | LendingPlatform.ConsoleApp/Services/StatisticsService.cs:7-17 | Reordering the applications leaves all four statistics unchanged. |
| `Statistics.StatisticsResultOf` | LendingPlatform.ConsoleApp/Services/StatisticsService.cs:42-52 | The record holds the four statistics unchanged. Its counts add up to the number of applications. |
| `Statistics.Snapshot` | LendingPlatform.ConsoleApp/Services/StatisticsService.cs:7-17 | The statistics read each stored application's current inputs and verdict, in list order. |
| `Statistics.StatisticsService.constructor` | LendingPlatform.ConsoleApp/Services/StatisticsService.cs:5 | The service keeps the given repository. |
| `Statistics.StatisticsService.GetStatistics` | LendingPlatform.ConsoleApp/Services/StatisticsService.cs:20-32 | The result is the statistics of the applications stored right now. |
| `Statistics.StatisticsService.GetStatisticsAsObject` | LendingPlatform.ConsoleApp/Services/StatisticsService.cs:42-52 | The result is the record form of those statistics. |
| `StatisticsScenarios.MixedDecisions` | LendingPlatform.Tests/Services/StatisticsServiceTests.cs:36-39 | The policy approves the first two applications of the mixed set (LTV 50 and 40, score 800). It declines the other two: LTV 60 with score 700, and a large loan with score 900. |
| `StatisticsScenarios.ApprovedThenDeclinedStatistics` | LendingPlatform.ConsoleApp/Services/StatisticsService.cs:20-32 | Two approved applications followed by two declined ones give counts (2, 2). The total is the two approved amounts only. The mean covers all four LTVs. |
| `StatisticsScenarios.MixedApplications` | LendingPlatform.Tests/Services/StatisticsServiceTests.cs:31-54 | The policy decides the mixed set, and the statistics come to (2, 2, 900000, "54.17"). All four amounts together come to 2,500,000. |
| `StatisticsScenarios.StatisticsOfOne` | LendingPlatform.ConsoleApp/Services/StatisticsService.cs:20-32 | One application's statistics are its own verdict, its amount if approved, and its own LTV. |
| `StatisticsScenarios.StatisticsOfTwo` | LendingPlatform.ConsoleApp/Services/StatisticsService.cs:20-32 | For two applications: the verdicts counted, the approved amounts added up, and the mean of the two LTVs. |
| `StatisticsScenarios.OnlyApprovedApplications` | LendingPlatform.Tests/Services/StatisticsServiceTests.cs:57-78 | Gives (2, 0, 800000, "40.00"). |
| `StatisticsScenarios.OnlyDeclinedApplications` | LendingPlatform.Tests/Services/StatisticsServiceTests.cs:81-102 | Gives (0, 2, 0, "102.50"). The two amounts together come to 2,050,000. |
| `StatisticsScenarios.OneApprovedOneDeclinedAsRecord` | LendingPlatform.Tests/Services/StatisticsServiceTests.cs:104-126 | Gives the record (1, 1, 500000, "40.00"). The two amounts together come to 800,000. |
| `StatisticsScenarios.LargeNumberDecisions` | LendingPlatform.Tests/Services/StatisticsServiceTests.cs:160-165 | The policy approves the large loan at LTV 33.33 with score 950 and the small loan of 999,999, and declines the large loan at LTV 66.67. |
| `StatisticsScenarios.ApprovedDeclinedApprovedStatistics` | LendingPlatform.ConsoleApp/Services/StatisticsService.cs:20-32 | An approved, a declined and an approved application give counts (2, 1). The total is the two approved amounts. The mean covers all three LTVs. |
| `StatisticsScenarios.LargeNumbers` | LendingPlatform.Tests/Services/StatisticsServiceTests.cs:156-180 | Gives (2, 1, 1999999, "44.44"). The three amounts together come to 3,499,999. |
| `StatisticsScenarios.SingleApplicationMeans` | LendingPlatform.Tests/Services/StatisticsServiceTests.cs:182-204 | A single application's mean renders as "20.00", "50.00", "75.00" and "33.33". |

## Left out

- `Program.cs` is not modelled. It is the console loop: it reads and validates input, prints, and wires the services together. All of this is I/O.
- `StatisticsService.GetStatisticsAsJson` is not modelled. It only hands the record to the JSON serializer, whose output format belongs to a library.
- The `ILoanRepository` interface is not modelled as a separate type, and neither are the test doubles that replace it. The program has one implementation of it, so `StatisticsService` takes the in-memory repository directly.
- `IRule<T>` is generic over the asset type and open to any implementation. The model closes it over the four policy rules. The test-only `TestRule` is not modelled. The `calls` trace of `Engine.RulesEngine.Execute` is ghost and records which hook ran for each rule. It replaces the flags that `TestRule` sets.
- `Engine.RulesEngine.Create` keeps only the parameter name of an `ArgumentNullException`, not its message text. The constructor's own `?? throw` can never run, because `ToList` has already thrown. So the model has one failure path, and it names "source".
- `Models.LoanTerms.LoanToValuePercent` computes an exact quotient. C# `decimal` division rounds to 28-29 significant digits. `decimal` sums can also overflow and throw. The model uses exact `real` arithmetic throughout, including the mean in `Statistics.StatisticsOf`. No tested value is close enough to a threshold for that rounding to matter. The quotient itself can overflow as well: a tiny positive asset value (1e-28, say) makes the LTV exceed the `decimal` range, and .NET throws an `OverflowException` when a rule reads it: the small-loan rule reads it for every loan below 1,000,000, the large-loan rule for a larger loan with a score of at least 950. This happens in the middle of the constructor. The program does not catch it. The model has no such exception: it computes the huge LTV and declines the application.
- The `{:C}` currency format in the general-limit message depends on the current culture. The model fixes the pound-sterling text "£100,000.00" / "£1,500,000.00" that the tests expect.
- `TwoDecimalFormat.FormatF2IsNearestHundredth` models `decimal.ToString("F2", InvariantCulture)` with exact rounding from the exact value. A value that rounds to zero is written without a minus sign, as .NET does for `decimal`.
- The approved and declined counts are C# `int`, and the model's counts are unbounded `nat`. Nothing is lost: a `List` holds at most 2^31 - 1 elements, so every group's count fits in an `int` and never wraps.
- `LoanApproved` has a public setter, so code outside the core could change a stored verdict. `Statistics.Snapshot` reads whatever value is current, and nothing in the model changes it after construction.
- Concurrent use of the repository is not modelled: the program runs on a single thread.
