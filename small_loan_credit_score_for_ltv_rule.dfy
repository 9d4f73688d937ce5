/** The rule that a small loan needs a credit score that rises with its LTV band, and is
    refused outright at an LTV of 90% or more. */
module SmallLoanAmountMustHaveValidCreditScoreForLtv {
  import opened Wrappers
  import opened Models
  import opened Text
  import opened LoanApplicationConstants

  const FailureReason: string :=
    "Small loan amount" + " must have a valid credit score" + " for the LTV ratio."

  /** A large loan passes. For a small loan the arms are tried in order: below 60, below 80,
      below 90, and 90 or more, which never passes. */
  predicate IsSatisfied(terms: LoanTerms) {
    if terms.loanAmount < LargeLoanAmount then
      var ltv := terms.LoanToValuePercent();
      if ltv < 60.0 then terms.applicantsCreditScore >= 750
      else if ltv < 80.0 then terms.applicantsCreditScore >= 800
      else if ltv < 90.0 then terms.applicantsCreditScore >= 900
      else false
    else
      true
  }

  /** Appends the one reason, leaving every earlier reason in place. */
  method ExecuteFailure(asset: LoanApplication)
    modifies asset
    ensures asset.declineReasons == old(asset.declineReasons) + [FailureReason]
    ensures asset.loanApproved == old(asset.loanApproved)
  {
    asset.declineReasons := asset.declineReasons + [FailureReason];
  }

  /** A reference statement of the same policy as a table: each band covers the LTVs below
      its bound that no earlier band covers, and demands a minimum score. */
  datatype Band = Band(ltvBelow: real, minimumCreditScore: int)

  const Bands: seq<Band> := [Band(60.0, 750), Band(80.0, 800), Band(90.0, 900)]

  /** The score demanded by the first band that covers `ltv`, or None past the last band. */
  function RequiredCreditScore(bands: seq<Band>, ltv: real): Option<int> {
    if bands == [] then None
    else if ltv < bands[0].ltvBelow then Some(bands[0].minimumCreditScore)
    else RequiredCreditScore(bands[1..], ltv)
  }

  /** Band bounds strictly increase and so do the demanded scores. */
  predicate Ascending(bands: seq<Band>) {
    forall i, j :: 0 <= i < j < |bands| ==>
      bands[i].ltvBelow < bands[j].ltvBelow && bands[i].minimumCreditScore < bands[j].minimumCreditScore
  }

  predicate SatisfiesBandTable(terms: LoanTerms) {
    terms.loanAmount >= LargeLoanAmount
    || match RequiredCreditScore(Bands, terms.LoanToValuePercent())
       case None => false
       case Some(minimum) => terms.applicantsCreditScore >= minimum
  }

  /** The switch in IsSatisfied and the band table state the same policy. */
  lemma SwitchMatchesBandTable(t: LoanTerms)
    ensures IsSatisfied(t) == SatisfiesBandTable(t)
  {
    var ltv := t.LoanToValuePercent();
    var b1 := [Band(80.0, 800), Band(90.0, 900)];
    var b2 := [Band(90.0, 900)];
    assert Bands[1..] == b1 && b1[1..] == b2 && b2[1..] == [];
    assert RequiredCreditScore(b2, ltv) == if ltv < 90.0 then Some(900) else None;
    assert RequiredCreditScore(b1, ltv) == if ltv < 80.0 then Some(800) else RequiredCreditScore(b2, ltv);
    assert RequiredCreditScore(Bands, ltv) == if ltv < 60.0 then Some(750) else RequiredCreditScore(b1, ltv);
  }

  /** In an ascending table a higher LTV is covered by the same band or a later one: it is
      never covered when a lower one is not, and never demands a lower score. */
  lemma {:induction false} RequiredScoreMonotone(bands: seq<Band>, low: real, high: real)
    requires Ascending(bands)
    requires low <= high
    ensures RequiredCreditScore(bands, high).Some? ==>
      RequiredCreditScore(bands, low).Some?
      && RequiredCreditScore(bands, low).value <= RequiredCreditScore(bands, high).value
  {
    if bands != [] && low >= bands[0].ltvBelow {
      RequiredScoreMonotone(bands[1..], low, high);
    } else if bands != [] && high >= bands[0].ltvBelow {
      RequiredScoreAbove(bands[1..], bands[0], high);
    }
  }

  /** Every band after `first` in an ascending table demands more than `first` does. */
  lemma {:induction false} RequiredScoreAbove(rest: seq<Band>, first: Band, ltv: real)
    requires Ascending([first] + rest)
    ensures RequiredCreditScore(rest, ltv).Some? ==> RequiredCreditScore(rest, ltv).value > first.minimumCreditScore
  {
    if rest != [] && ltv >= rest[0].ltvBelow {
      var shorter := [first] + rest[1..];
      forall i, j | 0 <= i < j < |shorter|
        ensures shorter[i].ltvBelow < shorter[j].ltvBelow
        ensures shorter[i].minimumCreditScore < shorter[j].minimumCreditScore
      {
        var i', j' := if i == 0 then 0 else i + 1, j + 1;
        assert shorter[i] == ([first] + rest)[i'] && shorter[j] == ([first] + rest)[j'];
      }
      RequiredScoreAbove(rest[1..], first, ltv);
    } else if rest != [] {
      assert ([first] + rest)[0] == first && ([first] + rest)[1] == rest[0];
    }
  }

  /** Band k covers the LTVs below its own bound and at or above the previous band's bound. */
  predicate InBand(bands: seq<Band>, k: int, ltv: real)
    requires 0 <= k < |bands|
  {
    ltv < bands[k].ltvBelow && (k == 0 || bands[k - 1].ltvBelow <= ltv)
  }

  /** In an ascending table the score demanded of an LTV is band k's exactly when the LTV
      lies in band k. */
  lemma {:induction false} SelectedBand(bands: seq<Band>, ltv: real, k: int)
    requires Ascending(bands)
    requires 0 <= k < |bands|
    ensures RequiredCreditScore(bands, ltv) == Some(bands[k].minimumCreditScore) <==> InBand(bands, k, ltv)
  {
    assert [bands[0]] + bands[1..] == bands;
    if ltv >= bands[0].ltvBelow {
      RequiredScoreAbove(bands[1..], bands[0], ltv);
    }
    if k > 0 {
      assert Ascending(bands[1..]) by {
        forall i, j | 0 <= i < j < |bands[1..]|
          ensures bands[1..][i].ltvBelow < bands[1..][j].ltvBelow
          ensures bands[1..][i].minimumCreditScore < bands[1..][j].minimumCreditScore
        {
          assert bands[1..][i] == bands[i + 1] && bands[1..][j] == bands[j + 1];
        }
      }
      SelectedBand(bands[1..], ltv, k - 1);
      assert bands[1..][k - 1] == bands[k];
      assert k > 1 ==> bands[1..][k - 2] == bands[k - 1];
      assert bands[0].ltvBelow <= bands[k - 1].ltvBelow;
    }
  }

  /** The policy's bands split the small-loan LTVs below 90 between them: each such LTV lies in
      exactly one band and is held to that band's score, while an LTV of 90 or more lies in
      none and no score is enough. */
  lemma EveryLtvInExactlyOneBand(ltv: real)
    ensures RequiredCreditScore(Bands, ltv).None? <==> ltv >= 90.0
    ensures forall k :: 0 <= k < |Bands| ==>
      (RequiredCreditScore(Bands, ltv) == Some(Bands[k].minimumCreditScore) <==> InBand(Bands, k, ltv))
  {
    var b1 := [Band(80.0, 800), Band(90.0, 900)];
    var b2 := [Band(90.0, 900)];
    assert Bands[1..] == b1 && b1[1..] == b2 && b2[1..] == [];
    assert RequiredCreditScore(b2, ltv).None? <==> ltv >= 90.0;
    assert Ascending(Bands);
    forall k | 0 <= k < |Bands|
      ensures RequiredCreditScore(Bands, ltv) == Some(Bands[k].minimumCreditScore) <==> InBand(Bands, k, ltv)
    {
      SelectedBand(Bands, ltv, k);
    }
  }

  /** At or above the large-loan threshold the rule holds whatever the LTV and credit score. */
  lemma LargeLoansAlwaysPass(t: LoanTerms)
    requires t.loanAmount >= LargeLoanAmount
    ensures IsSatisfied(t)
  {
  }

  /** The score each band demands of a small loan. Band upper bounds are strict, so an LTV of
      exactly 60 is in the 800 band and one of exactly 90 can never pass. */
  lemma SmallLoanBands(t: LoanTerms)
    requires t.loanAmount < LargeLoanAmount
    ensures t.LoanToValuePercent() < 60.0 ==> (IsSatisfied(t) <==> t.applicantsCreditScore >= 750)
    ensures 60.0 <= t.LoanToValuePercent() < 80.0 ==> (IsSatisfied(t) <==> t.applicantsCreditScore >= 800)
    ensures 80.0 <= t.LoanToValuePercent() < 90.0 ==> (IsSatisfied(t) <==> t.applicantsCreditScore >= 900)
    ensures t.LoanToValuePercent() >= 90.0 ==> !IsSatisfied(t)
    ensures t.LoanToValuePercent() == 60.0 ==> (IsSatisfied(t) <==> t.applicantsCreditScore >= 800)
  {
  }

  /** Raising the credit score never turns a pass into a fail. */
  lemma MonotoneInCreditScore(t: LoanTerms, score: int)
    requires IsSatisfied(t)
    requires score >= t.applicantsCreditScore
    ensures IsSatisfied(t.(applicantsCreditScore := score))
  {
  }

  /** For small loans with the same score, a higher LTV never turns a fail into a pass:
      if the higher-LTV application passes, so does the lower-LTV one. */
  lemma MonotoneInLtv(lower: LoanTerms, higher: LoanTerms)
    requires lower.loanAmount < LargeLoanAmount && higher.loanAmount < LargeLoanAmount
    requires lower.applicantsCreditScore == higher.applicantsCreditScore
    requires lower.LoanToValuePercent() <= higher.LoanToValuePercent()
    requires IsSatisfied(higher)
    ensures IsSatisfied(lower)
  {
    SwitchMatchesBandTable(lower);
    SwitchMatchesBandTable(higher);
    RequiredScoreMonotone(Bands, lower.LoanToValuePercent(), higher.LoanToValuePercent());
  }

  /** With a positive asset value the verdict is a division-free comparison. */
  lemma CrossMultipliedForm(t: LoanTerms)
    requires t.securedAssetValue > 0.0
    ensures var m, a, c := t.loanAmount * 100.0, t.securedAssetValue, t.applicantsCreditScore;
      IsSatisfied(t) <==>
        t.loanAmount >= LargeLoanAmount
        || (m < 60.0 * a && c >= 750)
        || (60.0 * a <= m < 80.0 * a && c >= 800)
        || (80.0 * a <= m < 90.0 * a && c >= 900)
  {
    LtvBelowIff(t, 60.0);
    LtvBelowIff(t, 80.0);
    LtvBelowIff(t, 90.0);
  }

  /** The cases exercised by the rule's unit tests. */
  lemma TestedCases()
    ensures IsSatisfied(LoanTerms(500000.0, 1000000.0, 750))
    ensures IsSatisfied(LoanTerms(500000.0, 1000000.0, 800))
    ensures IsSatisfied(LoanTerms(500000.0, 700000.0, 800))
    ensures IsSatisfied(LoanTerms(500000.0, 700000.0, 850))
    ensures IsSatisfied(LoanTerms(500000.0, 600000.0, 900))
    ensures IsSatisfied(LoanTerms(500000.0, 600000.0, 950))
    ensures !IsSatisfied(LoanTerms(500000.0, 1000000.0, 749))
    ensures !IsSatisfied(LoanTerms(500000.0, 700000.0, 799))
    ensures !IsSatisfied(LoanTerms(500000.0, 600000.0, 899))
    ensures !IsSatisfied(LoanTerms(500000.0, 550000.0, 999))
    ensures !IsSatisfied(LoanTerms(500000.0, 500000.0, 999))
    ensures IsSatisfied(LoanTerms(1000000.0, 1000000.0, 700))
    ensures IsSatisfied(LoanTerms(1500000.0, 1000000.0, 600))
    ensures IsSatisfied(LoanTerms(299999.0, 600000.0, 750))
    ensures IsSatisfied(LoanTerms(479999.0, 600000.0, 800))
    ensures IsSatisfied(LoanTerms(539999.0, 600000.0, 900))
  {
  }

  lemma FailureReasonStartsWithSmallLoanAmount()
    ensures StartsWith(FailureReason, "Small loan amount")
  {
    var head := "Small loan amount";
    assert StartsWith(head, head);
    StartsWithConcat(head, " must have a valid credit score" + " for the LTV ratio.", head);
    assert FailureReason == head + (" must have a valid credit score" + " for the LTV ratio.");
  }
}
