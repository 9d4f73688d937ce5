/** The rules engine: an ordered rule list that can grow at the end, and an evaluation that
    runs every rule against one application, in list order, without short-circuiting. */
module Engine {
  import opened Wrappers
  import opened Models
  import opened Rules

  /** The error thrown for an absent argument, carrying the parameter's name. */
  datatype ArgumentNullException = ArgumentNullException(paramName: string)

  /** Which hook ran for a rule. Used only to state what Execute does. */
  datatype HookCall = ExecuteSuccessCalled(rule: Rule) | ExecuteFailureCalled(rule: Rule)

  /** The one hook that runs for a rule: the success hook if its verdict holds, else the
      failure hook. */
  function HookFor(rule: Rule, terms: LoanTerms): HookCall {
    if IsSatisfied(rule, terms) then ExecuteSuccessCalled(rule) else ExecuteFailureCalled(rule)
  }

  /** The reason one rule contributes: its message if it fails, nothing if it holds. */
  function ReasonOf(rule: Rule, terms: LoanTerms): seq<string> {
    if IsSatisfied(rule, terms) then [] else [FailureReason(rule)]
  }

  /** The messages recorded by the failing rules of a list, in list order. No message is
      recorded exactly when every rule holds. */
  function FailureReasons(rules: seq<Rule>, terms: LoanTerms): (reasons: seq<string>)
    ensures |reasons| <= |rules|
    ensures reasons == [] <==> forall i :: 0 <= i < |rules| ==> IsSatisfied(rules[i], terms)
  {
    if rules == [] then []
    else
      (if IsSatisfied(rules[0], terms) then [] else [FailureReason(rules[0])])
      + FailureReasons(rules[1..], terms)
  }

  /** Running two lists one after the other records the first list's messages, then the
      second's. */
  lemma {:induction false} FailureReasonsAppend(a: seq<Rule>, b: seq<Rule>, terms: LoanTerms)
    ensures FailureReasons(a + b, terms) == FailureReasons(a, terms) + FailureReasons(b, terms)
  {
    if a != [] {
      assert (a + b)[1..] == a[1..] + b;
      FailureReasonsAppend(a[1..], b, terms);
    } else {
      assert a + b == b;
    }
  }

  /** A one-rule list records that rule's message exactly when it fails. */
  lemma OneRuleReasons(rule: Rule, terms: LoanTerms)
    ensures FailureReasons([rule], terms) == ReasonOf(rule, terms)
  {
    assert [rule][1..] == [];
  }

  /** One step of an evaluation: the rule's verdict picks the hook that runs; a failing rule
      appends its message. */
  method RunRule(rule: Rule, asset: LoanApplication, terms: LoanTerms) returns (ghost call: HookCall)
    requires terms == asset.Terms()
    modifies asset
    ensures asset.declineReasons == old(asset.declineReasons) + FailureReasons([rule], terms)
    ensures asset.loanApproved == old(asset.loanApproved)
    ensures call == HookFor(rule, terms)
  {
    OneRuleReasons(rule, terms);
    if IsSatisfied(rule, terms) {
      ExecuteSuccess(rule, asset);
      call := ExecuteSuccessCalled(rule);
    } else {
      ExecuteFailure(rule, asset);
      call := ExecuteFailureCalled(rule);
    }
  }

  class RulesEngine {
    var rules: seq<Rule>

    /** Takes its own copy of the given rules. */
    constructor (rules: seq<Rule>)
      ensures this.rules == rules
    {
      this.rules := rules;
    }

    /** Construction when the rule collection handle may be absent. An absent collection is
        rejected while it is copied, so the error names the copying routine's parameter,
        "source", before the constructor's own null check could run. */
    static method Create(rules: Option<seq<Rule>>) returns (r: Result<RulesEngine, ArgumentNullException>)
      ensures rules.None? ==> r == Failure(ArgumentNullException("source"))
      ensures rules.Some? ==> r.Success? && fresh(r.value) && r.value.rules == rules.value
    {
      if rules.None? {
        return Failure(ArgumentNullException("source"));
      }
      var engine := new RulesEngine(rules.value);
      return Success(engine);
    }

    /** Appends a rule after every existing one; it takes part in later evaluations. */
    method AddRule(rule: Rule)
      modifies this
      ensures rules == old(rules) + [rule]
    {
      rules := rules + [rule];
    }

    /** Runs every rule in order against the application, calling exactly one hook per rule.
        An absent application is rejected before any rule runs. */
    method Execute(asset: LoanApplication?) returns (outcome: Outcome<ArgumentNullException>, ghost calls: seq<HookCall>)
      modifies asset
      ensures asset == null ==> outcome == Fail(ArgumentNullException("asset")) && calls == []
      ensures asset != null ==> outcome == Pass
      ensures asset != null ==>
        asset.declineReasons == old(asset.declineReasons) + FailureReasons(rules, asset.Terms())
      ensures asset != null ==> asset.loanApproved == old(asset.loanApproved)
      ensures asset != null ==>
        |calls| == |rules| && forall i :: 0 <= i < |rules| ==> calls[i] == HookFor(rules[i], asset.Terms())
    {
      if asset == null {
        return Fail(ArgumentNullException("asset")), [];
      }
      calls := [];
      var rs, terms := rules, asset.Terms();
      var i := 0;
      while i < |rs|
        invariant 0 <= i <= |rs|
        invariant asset.declineReasons == old(asset.declineReasons) + FailureReasons(rs[..i], terms)
        invariant asset.loanApproved == old(asset.loanApproved)
        invariant |calls| == i && forall k :: 0 <= k < i ==> calls[k] == HookFor(rs[k], terms)
      {
        var rule := rs[i];
        ghost var call := RunRule(rule, asset, terms);
        calls := calls + [call];
        FailureReasonsAppend(rs[..i], [rule], terms);
        assert rs[..i + 1] == rs[..i] + [rule];
        i := i + 1;
      }
      assert rs[..i] == rs;
      outcome := Pass;
    }
  }
}
