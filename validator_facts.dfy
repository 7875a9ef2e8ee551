/**
 * What the strict validator promises, proved about its specification functions: which
 * error is reported for which defect, when a rule set is valid, and how the test runner
 * relates to the test-case checks of the validator.
 */
module ValidatorFacts {
  import opened Wrappers
  import opened RegexOracle
  import opened RuleModel
  import opened Validator

  // ---------------------------------------------------------------------------------------
  // Where each error comes from
  // ---------------------------------------------------------------------------------------

  lemma InRuleAtMembers(i: nat, issues: seq<RuleIssue>, x: RuleSetIssue)
    ensures x in InRuleAt(i, issues) <==> x.InRule? && x.ruleIndex == i && x.issue in issues
  {
    var tagged := InRuleAt(i, issues);
    if x.InRule? && x.ruleIndex == i && x.issue in issues {
      var k :| 0 <= k < |issues| && issues[k] == x.issue;
      assert tagged[k] == x;
    }
  }

  /** An error of the per-rule pass is either a rule's own issue, tagged with its index, or a duplicate id. */
  lemma {:induction false} PerRuleIssuesMembers(check: Rule -> seq<RuleIssue>, rules: seq<Rule>, n: nat, x: RuleSetIssue)
    requires n <= |rules|
    ensures x in PerRuleIssues(check, rules, n) <==>
      || (x.InRule? && x.ruleIndex < n && x.issue in check(rules[x.ruleIndex]))
      || (x.DuplicateRuleId? && exists i :: 0 <= i < n && DuplicateAt(rules, i) && rules[i].id == x.id)
  {
    if n > 0 {
      PerRuleIssuesMembers(check, rules, n - 1, x);
      InRuleAtMembers(n - 1, check(rules[n - 1]), x);
      PerRuleIssuesSplit(check, rules, n, x);
      if x.DuplicateRuleId? && (exists i :: 0 <= i < n && DuplicateAt(rules, i) && rules[i].id == x.id) {
        var i :| 0 <= i < n && DuplicateAt(rules, i) && rules[i].id == x.id;
        if i < n - 1 {
          assert x in PerRuleIssues(check, rules, n - 1);
        }
      }
    }
  }

  lemma PerRuleIssuesSplit(check: Rule -> seq<RuleIssue>, rules: seq<Rule>, n: nat, x: RuleSetIssue)
    requires 0 < n <= |rules|
    ensures x in PerRuleIssues(check, rules, n) <==>
      x in PerRuleIssues(check, rules, n - 1) || x in InRuleAt(n - 1, check(rules[n - 1])) || x in DuplicateReport(rules, n - 1)
  {
    assert PerRuleIssues(check, rules, n)
        == PerRuleIssues(check, rules, n - 1) + InRuleAt(n - 1, check(rules[n - 1])) + DuplicateReport(rules, n - 1);
  }

  /** The per-rule pass reports nothing exactly when every rule is clean and no id repeats. */
  lemma PerRuleIssuesEmptyIff(check: Rule -> seq<RuleIssue>, rules: seq<Rule>, n: nat)
    requires n <= |rules|
    ensures PerRuleIssues(check, rules, n) == [] <==>
      (forall i :: 0 <= i < n ==> check(rules[i]) == []) && (forall i :: 0 <= i < n ==> !DuplicateAt(rules, i))
  {
    if PerRuleIssues(check, rules, n) == [] {
      PerRuleIssuesEmptyAll(check, rules, n);
    } else {
      PerRuleIssuesNonEmpty(check, rules, n);
    }
  }

  /** An empty report means every rule is clean and none repeats an id. */
  lemma {:induction false} PerRuleIssuesEmptyAll(check: Rule -> seq<RuleIssue>, rules: seq<Rule>, n: nat)
    requires n <= |rules| && PerRuleIssues(check, rules, n) == []
    ensures forall i :: 0 <= i < n ==> check(rules[i]) == [] && !DuplicateAt(rules, i)
  {
    if n > 0 {
      PerRuleIssuesEmptyStep(check, rules, n);
      PerRuleIssuesEmptyAll(check, rules, n - 1);
    }
  }

  /** A non-empty report names a rule with issues or a repeated id. */
  lemma {:induction false} PerRuleIssuesNonEmpty(check: Rule -> seq<RuleIssue>, rules: seq<Rule>, n: nat)
    requires n <= |rules| && PerRuleIssues(check, rules, n) != []
    ensures exists i :: 0 <= i < n && (check(rules[i]) != [] || DuplicateAt(rules, i))
  {
    PerRuleIssuesEmptyStep(check, rules, n);
    if check(rules[n - 1]) != [] || DuplicateAt(rules, n - 1) {
      assert 0 <= n - 1 < n;
    } else {
      PerRuleIssuesNonEmpty(check, rules, n - 1);
      var i :| 0 <= i < n - 1 && (check(rules[i]) != [] || DuplicateAt(rules, i));
      assert 0 <= i < n;
    }
  }

  /** The first `n` rules report nothing iff the first `n - 1` do and rule `n - 1` adds nothing. */
  lemma PerRuleIssuesEmptyStep(check: Rule -> seq<RuleIssue>, rules: seq<Rule>, n: nat)
    requires 0 < n <= |rules|
    ensures PerRuleIssues(check, rules, n) == [] <==>
      PerRuleIssues(check, rules, n - 1) == [] && check(rules[n - 1]) == [] && !DuplicateAt(rules, n - 1)
  {
    var earlier := PerRuleIssues(check, rules, n - 1);
    var own := InRuleAt(n - 1, check(rules[n - 1]));
    var dup := DuplicateReport(rules, n - 1);
    assert PerRuleIssues(check, rules, n) == earlier + own + dup;
    assert |PerRuleIssues(check, rules, n)| == |earlier| + |own| + |dup|;
  }

  /** The errors are the header's, then the rules'. */
  lemma ErrorsMembers(e: Engine, rs: RuleSet, x: RuleSetIssue)
    ensures x in Validate(e, rs).errors <==> x in HeaderIssues(rs) || x in RulesIssues(e, rs.rules)
  {
    assert Validate(e, rs).errors == HeaderIssues(rs) + RulesIssues(e, rs.rules);
  }

  lemma HeaderIssuesMembers(rs: RuleSet, x: RuleSetIssue)
    ensures x in HeaderIssues(rs) <==>
      || (x == NameMissing && rs.name == "")
      || (x == VersionMissing && rs.version == "")
      || (x == VersionNotSemantic && rs.version != "" && !IsSemVer(rs.version))
      || (x == DescriptionMissing && rs.description == "")
  {
  }

  lemma RulesIssuesMembers(e: Engine, rs: RuleSet, x: RuleSetIssue)
    ensures x in RulesIssues(e, rs.rules) <==>
      || (x == RulesMissing && rs.rules.None?)
      || (x == RulesEmpty && rs.rules == Some([]))
      || (rs.rules.Some? && rs.rules.value != [] && x in PerRuleIssues(RuleCheck(e), rs.rules.value, |rs.rules.value|))
  {
  }

  /** The per-rule pass reports only rule-level errors. */
  lemma PerRuleIssuesKinds(e: Engine, rules: seq<Rule>, x: RuleSetIssue)
    requires x in PerRuleIssues(RuleCheck(e), rules, |rules|)
    ensures x.InRule? || x.DuplicateRuleId?
  {
    PerRuleIssuesMembers(RuleCheck(e), rules, |rules|, x);
  }

  /** Each header error, and each of the two rules-array errors, is reported exactly for its own defect. */
  lemma HeaderErrorsIff(e: Engine, rs: RuleSet, x: RuleSetIssue)
    requires x.NameMissing? || x.VersionMissing? || x.VersionNotSemantic? || x.DescriptionMissing?
             || x.RulesMissing? || x.RulesEmpty?
    ensures x in Validate(e, rs).errors <==>
      match x
      case NameMissing => rs.name == ""
      case VersionMissing => rs.version == ""
      case VersionNotSemantic => rs.version != "" && !IsSemVer(rs.version)
      case DescriptionMissing => rs.description == ""
      case RulesMissing => rs.rules.None?
      case RulesEmpty => rs.rules == Some([])
  {
    ErrorsMembers(e, rs, x);
    HeaderIssuesMembers(rs, x);
    RulesIssuesMembers(e, rs, x);
    if rs.rules.Some? && rs.rules.value != [] && x in PerRuleIssues(RuleCheck(e), rs.rules.value, |rs.rules.value|) {
      PerRuleIssuesKinds(e, rs.rules.value, x);
    }
  }

  /** A rule's issue appears in the rule set's errors, tagged with the rule's index, exactly when the rule has it. */
  lemma RuleErrorIff(e: Engine, rs: RuleSet, i: nat, x: RuleIssue)
    ensures InRule(i, x) in Validate(e, rs).errors <==>
      rs.rules.Some? && i < |rs.rules.value| && x in RuleIssues(e, rs.rules.value[i])
  {
    ErrorsMembers(e, rs, InRule(i, x));
    HeaderIssuesMembers(rs, InRule(i, x));
    RulesIssuesMembers(e, rs, InRule(i, x));
    if rs.rules.Some? && rs.rules.value != [] {
      PerRuleIssuesMembers(RuleCheck(e), rs.rules.value, |rs.rules.value|, InRule(i, x));
      if i < |rs.rules.value| {
        assert RuleCheck(e)(rs.rules.value[i]) == RuleIssues(e, rs.rules.value[i]);
      }
    }
  }

  /** A duplicate-id error names an id that two rules share, and every shared non-empty id is reported. */
  lemma DuplicateErrorIff(e: Engine, rs: RuleSet, id: string)
    ensures DuplicateRuleId(id) in Validate(e, rs).errors <==>
      rs.rules.Some? && id != "" &&
      exists i, j :: 0 <= j < i < |rs.rules.value| && rs.rules.value[i].id == id && rs.rules.value[j].id == id
  {
    ErrorsMembers(e, rs, DuplicateRuleId(id));
    HeaderIssuesMembers(rs, DuplicateRuleId(id));
    RulesIssuesMembers(e, rs, DuplicateRuleId(id));
    if rs.rules.Some? && rs.rules.value != [] {
      var rules := rs.rules.value;
      PerRuleIssuesMembers(RuleCheck(e), rules, |rules|, DuplicateRuleId(id));
      if id != "" && exists i, j :: 0 <= j < i < |rules| && rules[i].id == id && rules[j].id == id {
        var i, j :| 0 <= j < i < |rules| && rules[i].id == id && rules[j].id == id;
        assert DuplicateAt(rules, i);
      }
    }
  }

  // ---------------------------------------------------------------------------------------
  // When a rule set is valid
  // ---------------------------------------------------------------------------------------

  /** Rule ids are pairwise distinct. */
  predicate DistinctIds(rules: seq<Rule>) {
    forall i, j :: 0 <= j < i < |rules| ==> rules[i].id != rules[j].id
  }

  /** The validator's verdict, stated as one condition on the rule set. */
  predicate Acceptable(e: Engine, rs: RuleSet) {
    && rs.name != ""
    && IsSemVer(rs.version)
    && rs.description != ""
    && rs.rules.Some? && rs.rules.value != []
    && RulesClean(e, rs.rules.value)
  }

  lemma HeaderCleanIff(rs: RuleSet)
    ensures HeaderIssues(rs) == [] <==> rs.name != "" && IsSemVer(rs.version) && rs.description != ""
  {
    assert |HeaderIssues(rs)| == 0 <==> rs.name != "" && rs.version != "" && IsSemVer(rs.version) && rs.description != "";
  }

  /** Every rule passes its checks and no id repeats. */
  predicate RulesClean(e: Engine, rules: seq<Rule>) {
    && (forall i :: 0 <= i < |rules| ==> RuleAcceptable(e, rules[i]))
    && DistinctIds(rules)
  }

  /** No rule is flagged as a duplicate exactly when the non-empty ids are pairwise distinct. */
  lemma NoDuplicateIff(rules: seq<Rule>)
    ensures (forall i :: 0 <= i < |rules| ==> !DuplicateAt(rules, i)) <==>
            (forall i, j :: 0 <= j < i < |rules| && rules[i].id != "" ==> rules[i].id != rules[j].id)
  {
    if forall i :: 0 <= i < |rules| ==> !DuplicateAt(rules, i) {
      forall i, j | 0 <= j < i < |rules| && rules[i].id != "" ensures rules[i].id != rules[j].id {
        assert !DuplicateAt(rules, i);
      }
    }
  }

  lemma EachRuleCleanIff(e: Engine, rules: seq<Rule>)
    ensures (forall i :: 0 <= i < |rules| ==> RuleCheck(e)(rules[i]) == []) <==>
            (forall i :: 0 <= i < |rules| ==> RuleAcceptable(e, rules[i]))
  {
    forall i | 0 <= i < |rules|
      ensures RuleCheck(e)(rules[i]) == [] <==> RuleAcceptable(e, rules[i])
    {
      assert RuleCheck(e)(rules[i]) == RuleIssues(e, rules[i]);
      RuleIssuesEmptyIff(e, rules[i]);
    }
  }

  lemma PerRuleCleanIff(e: Engine, rules: seq<Rule>)
    ensures PerRuleIssues(RuleCheck(e), rules, |rules|) == [] <==> RulesClean(e, rules)
  {
    PerRuleIssuesEmptyIff(RuleCheck(e), rules, |rules|);
    EachRuleCleanIff(e, rules);
    NoDuplicateIff(rules);
    if forall i :: 0 <= i < |rules| ==> RuleAcceptable(e, rules[i]) {
      forall i | 0 <= i < |rules| ensures rules[i].id != "" {
        AcceptableHasId(e, rules[i]);
      }
      DistinctNonEmptyIds(rules);
    }
  }

  lemma AcceptableHasId(e: Engine, r: Rule)
    requires RuleAcceptable(e, r)
    ensures r.id != ""
  {
  }

  /** When no id is empty, distinct non-empty ids are distinct ids. */
  lemma DistinctNonEmptyIds(rules: seq<Rule>)
    requires forall i :: 0 <= i < |rules| ==> rules[i].id != ""
    ensures DistinctIds(rules) <==>
      forall i, j :: 0 <= j < i < |rules| && rules[i].id != "" ==> rules[i].id != rules[j].id
  {
  }

  /** `isValid` holds exactly for the rule sets every check accepts. */
  lemma ValidIff(e: Engine, rs: RuleSet)
    ensures Validate(e, rs).isValid <==> Acceptable(e, rs)
  {
    var errors := Validate(e, rs).errors;
    assert errors == HeaderIssues(rs) + RulesIssues(e, rs.rules);
    assert errors == [] <==> HeaderIssues(rs) == [] && RulesIssues(e, rs.rules) == [];
    HeaderCleanIff(rs);
    if rs.rules.Some? && rs.rules.value != [] {
      PerRuleCleanIff(e, rs.rules.value);
    }
  }

  /** The author and the tags never change the verdict or the errors. */
  lemma WarningsDoNotAffectErrors(e: Engine, rs: RuleSet, author: string, tags: Option<seq<string>>)
    ensures Validate(e, rs.(author := author, tags := tags)).errors == Validate(e, rs).errors
    ensures Validate(e, rs.(author := author, tags := tags)).isValid == Validate(e, rs).isValid
  {
    var other := rs.(author := author, tags := tags);
    assert HeaderIssues(other) == HeaderIssues(rs);
    assert other.rules == rs.rules;
  }

  /** Each warning is given exactly for its own missing field. */
  lemma WarningsIff(e: Engine, rs: RuleSet)
    ensures AuthorMissing in Validate(e, rs).warnings <==> rs.author == ""
    ensures TagsMissing in Validate(e, rs).warnings <==> rs.tags.None? || rs.tags.value == []
  {
    assert Validate(e, rs).warnings == Warnings(rs);
  }

  // ---------------------------------------------------------------------------------------
  // The test runner against the validator's test-case checks
  // ---------------------------------------------------------------------------------------

  /** A test case the validator accepts also passes the test runner. */
  lemma TestCaseHoldsImpliesPasses(e: Engine, rule: Rule, tc: TestCase)
    requires TestCaseHolds(e, rule, tc)
    ensures TestRulePasses(e, rule, tc)
  {
  }

  /** The converse fails: a non-matching case without `expected` passes the runner but not the validator. */
  lemma PassingIsWeakerThanValid()
    ensures exists e: Engine, rule: Rule, tc: TestCase ::
      TestRulePasses(e, rule, tc) && TestCaseIssues(e, rule, tc) == [ExpectedMissing]
  {
    var e := Engine((p: string, f: string) => true, (p: string, f: string) => "",
                    (re: Regex, s: string) => 0, (re: Regex, s: string, r: string) => s);
    var rule := Rule("ssn", "SSN", "", "\\d{3}-\\d{2}-\\d{4}", "", Some("[SSN]"), Some(0.9),
                     Some("personal"), Some("high"), Some(true), None);
    var tc := TestCase(Some("no digits here"), None, Some(false));
    assert TestRulePasses(e, rule, tc);
    assert TestCaseIssues(e, rule, tc) == [ExpectedMissing];
  }

  /**
   * A passing test case pins the rule's output on its input: with a match, the declared
   * `expected`; without one, the input unchanged.
   */
  lemma PassingCaseFixesOutput(e: Engine, rule: Rule, tc: TestCase)
    requires Sound(e) && TestRulePasses(e, rule, tc)
    ensures tc.input.Some? && tc.shouldMatch.Some?
    ensures tc.shouldMatch.value ==> tc.expected == Some(e.replaceAll(RuleRegex(rule), tc.input.value, ReplacementText(rule)))
    ensures !tc.shouldMatch.value ==> e.replaceAll(RuleRegex(rule), tc.input.value, ReplacementText(rule)) == tc.input.value
  {
  }

  lemma {:induction false} FailingCasesMembers(e: Engine, rule: Rule, tcs: seq<TestCase>, n: nat, tc: TestCase)
    requires n <= |tcs|
    ensures tc in FailingCases(e, rule, tcs, n) <==>
      (exists j :: 0 <= j < n && tcs[j] == tc) && !TestRulePasses(e, rule, tc)
    ensures |FailingCases(e, rule, tcs, n)| <= n
  {
    if n > 0 {
      FailingCasesMembers(e, rule, tcs, n - 1, tc);
      if (exists j :: 0 <= j < n && tcs[j] == tc) && !TestRulePasses(e, rule, tc) {
        var j :| 0 <= j < n && tcs[j] == tc;
        if j < n - 1 {
          assert tc in FailingCases(e, rule, tcs, n - 1);
        }
      }
    }
  }

  /** The case at `(i, j)`: test case `j` of rule `i`. */
  predicate CaseAt(rules: seq<Rule>, i: int, j: int, tc: TestCase) {
    0 <= i < |rules| && 0 <= j < |CasesOf(rules[i])| && CasesOf(rules[i])[j] == tc
  }

  lemma FailedAcrossMembers(e: Engine, rules: seq<Rule>, n: nat, tc: TestCase)
    requires n <= |rules|
    ensures tc in FailedAcross(e, rules, n) <==>
      exists i, j :: i < n && CaseAt(rules, i, j, tc) && !TestRulePasses(e, rules[i], tc)
    ensures |FailedAcross(e, rules, n)| <= CaseCount(rules, n)
  {
    FailedAcrossIff(e, rules, n, tc);
    FailedAcrossBound(e, rules, n);
  }

  lemma {:induction false} FailedAcrossIff(e: Engine, rules: seq<Rule>, n: nat, tc: TestCase)
    requires n <= |rules|
    ensures tc in FailedAcross(e, rules, n) <==>
      exists i, j :: i < n && CaseAt(rules, i, j, tc) && !TestRulePasses(e, rules[i], tc)
  {
    if n > 0 {
      FailedAcrossIff(e, rules, n - 1, tc);
      FailedAcrossLast(e, rules, n, tc);
      var cases := CasesOf(rules[n - 1]);
      if tc in cases {
        var j :| 0 <= j < |cases| && cases[j] == tc;
        assert CaseAt(rules, n - 1, j, tc);
      }
    }
  }

  /** One more rule adds its own failing cases. */
  lemma FailedAcrossLast(e: Engine, rules: seq<Rule>, n: nat, tc: TestCase)
    requires 0 < n <= |rules|
    ensures tc in FailedAcross(e, rules, n) <==>
      tc in FailedAcross(e, rules, n - 1) || (tc in CasesOf(rules[n - 1]) && !TestRulePasses(e, rules[n - 1], tc))
  {
    var cases := CasesOf(rules[n - 1]);
    FailingCasesMembers(e, rules[n - 1], cases, |cases|, tc);
  }

  lemma {:induction false} FailedAcrossBound(e: Engine, rules: seq<Rule>, n: nat)
    requires n <= |rules|
    ensures |FailedAcross(e, rules, n)| <= CaseCount(rules, n)
  {
    if n > 0 {
      var cases := CasesOf(rules[n - 1]);
      FailedAcrossBound(e, rules, n - 1);
      FailingCasesBound(e, rules[n - 1], cases, |cases|);
    }
  }

  lemma {:induction false} FailingCasesBound(e: Engine, rule: Rule, tcs: seq<TestCase>, n: nat)
    requires n <= |tcs|
    ensures |FailingCases(e, rule, tcs, n)| <= n
  {
    if n > 0 {
      FailingCasesBound(e, rule, tcs, n - 1);
    }
  }

  /**
   * `testRuleSet` counts every declared case, lists a case as failed exactly when some rule
   * declaring it fails it, and passes exactly when nothing failed.
   */
  lemma TestRunReport(e: Engine, rs: RuleSet, tc: TestCase)
    requires rs.rules.Some?
    ensures TestRun(e, rs).Some?
    ensures tc in TestRun(e, rs).value.failed <==>
      exists i, j :: CaseAt(rs.rules.value, i, j, tc) && !TestRulePasses(e, rs.rules.value[i], tc)
    ensures |TestRun(e, rs).value.failed| <= TestRun(e, rs).value.total
    ensures TestRun(e, rs).value.passed <==> TestRun(e, rs).value.failed == []
  {
    FailedAcrossMembers(e, rs.rules.value, |rs.rules.value|, tc);
  }

  /** `testRuleSet` passes exactly when every declared case passes. */
  lemma TestRunPassesIff(e: Engine, rs: RuleSet)
    requires rs.rules.Some?
    ensures TestRun(e, rs).Some?
    ensures TestRun(e, rs).value.passed <==>
      forall i, j :: 0 <= i < |rs.rules.value| && 0 <= j < |CasesOf(rs.rules.value[i])| ==>
        TestRulePasses(e, rs.rules.value[i], CasesOf(rs.rules.value[i])[j])
  {
    var rules := rs.rules.value;
    var failed := TestRun(e, rs).value.failed;
    if failed != [] {
      var tc := failed[0];
      FailedAcrossMembers(e, rules, |rules|, tc);
    } else {
      forall i, j | 0 <= i < |rules| && 0 <= j < |CasesOf(rules[i])|
        ensures TestRulePasses(e, rules[i], CasesOf(rules[i])[j])
      {
        var tc := CasesOf(rules[i])[j];
        FailedAcrossMembers(e, rules, |rules|, tc);
        assert CaseAt(rules, i, j, tc);
      }
    }
  }

  /** A rule set the validator accepts passes its own test run. */
  lemma ValidImpliesTestsPass(e: Engine, rs: RuleSet)
    requires Validate(e, rs).isValid
    ensures TestRun(e, rs).Some? && TestRun(e, rs).value.passed
  {
    ValidIff(e, rs);
    var rules := rs.rules.value;
    TestRunPassesIff(e, rs);
    forall i, j | 0 <= i < |rules| && 0 <= j < |CasesOf(rules[i])|
      ensures TestRulePasses(e, rules[i], CasesOf(rules[i])[j])
    {
      assert RuleAcceptable(e, rules[i]);
      assert CasesOf(rules[i])[j] in rules[i].testCases.value;
      TestCaseHoldsImpliesPasses(e, rules[i], CasesOf(rules[i])[j]);
    }
  }
}
