/**
 * The strict rule-set validator (`RuleValidator`): it collects every structural defect of a
 * rule set instead of stopping at the first, and runs each rule's declared test cases
 * against the regex engine. A second entry point only runs the test cases and reports which
 * ones fail.
 *
 * Each imperative operation is a method proved equal to a specification function; what the
 * validator promises is proved about those functions.
 */
module Validator {
  import opened Wrappers
  import opened Seqs
  import opened Text
  import opened RegexOracle
  import opened RuleModel

  // ---------------------------------------------------------------------------------------
  // The three regular expressions the validator itself applies, stated exactly.
  // ---------------------------------------------------------------------------------------

  /** One or more decimal digits: `\d+`. */
  predicate IsNumeral(s: string) {
    |s| > 0 && AllDigits(s)
  }

  /** `/^\d+\.\d+\.\d+$/.test(v)`, by the positions of the two dots. */
  predicate IsSemVer(v: string) {
    exists i, j | 0 <= i < |v| && i < j < |v| ::
      v[i] == '.' && v[j] == '.' && IsNumeral(v[..i]) && IsNumeral(v[i + 1..j]) && IsNumeral(v[j + 1..])
  }

  /** The language of `^\d+\.\d+\.\d+$`: three numerals joined by dots. */
  ghost predicate SemVerShape(v: string) {
    exists a, b, c :: IsNumeral(a) && IsNumeral(b) && IsNumeral(c) && v == a + "." + b + "." + c
  }

  /** The dot-position check accepts exactly the strings of the form `digits.digits.digits`. */
  lemma IsSemVerIff(v: string)
    ensures IsSemVer(v) <==> SemVerShape(v)
  {
    if IsSemVer(v) {
      var i, j :| 0 <= i < |v| && i < j < |v| && v[i] == '.' && v[j] == '.'
        && IsNumeral(v[..i]) && IsNumeral(v[i + 1..j]) && IsNumeral(v[j + 1..]);
      SplitAtDots(v, i, j);
    }
    if SemVerShape(v) {
      var a, b, c :| IsNumeral(a) && IsNumeral(b) && IsNumeral(c) && v == a + "." + b + "." + c;
      DotsOfJoin(a, b, c);
    }
  }

  lemma SplitAtDots(v: string, i: nat, j: nat)
    requires i < j < |v| && v[i] == '.' && v[j] == '.'
    ensures v == v[..i] + "." + v[i + 1..j] + "." + v[j + 1..]
  {
    assert v == v[..i] + v[i..j] + v[j..];
    assert v[i..j] == "." + v[i + 1..j];
    assert v[j..] == "." + v[j + 1..];
  }

  lemma DotsOfJoin(a: string, b: string, c: string)
    requires IsNumeral(a) && IsNumeral(b) && IsNumeral(c)
    ensures IsSemVer(a + "." + b + "." + c)
  {
    var v := a + "." + b + "." + c;
    var i, j := |a|, |a| + 1 + |b|;
    assert v[..i] == a;
    assert v[i + 1..j] == b;
    assert v[j + 1..] == c;
    assert v[i] == '.' && v[j] == '.';
  }

  predicate IsIdChar(c: char) {
    ('a' <= c <= 'z') || ('A' <= c <= 'Z') || ('0' <= c <= '9') || c == '_' || c == '-'
  }

  /** `/^[a-zA-Z0-9_-]+$/.test(id)`. */
  predicate IsValidId(id: string) {
    |id| > 0 && forall i :: 0 <= i < |id| ==> IsIdChar(id[i])
  }

  /** `/^[gimuy]*$/.test(flags)`. */
  predicate IsSafeFlags(flags: string) {
    forall i :: 0 <= i < |flags| ==> flags[i] in "gimuy"
  }

  // ---------------------------------------------------------------------------------------
  // What the validator reports.
  // ---------------------------------------------------------------------------------------

  datatype TestCaseIssue =
    | InputMissing
    | ExpectedMissing
    | ShouldMatchMissing
    | LogicError(shouldMatch: bool, hasMatch: bool)
    | ReplacementMismatch
    | TestingFailed(message: string)

  datatype RuleIssue =
    | IdMissing
    | IdCharset
    | RuleNameMissing
    | PatternMissing
    | PatternInvalid(message: string)
    | ReplacementMissing
    | ConfidenceMissing
    | ConfidenceOutOfRange
    | CategoryMissing
    | CategoryInvalid
    | SeverityMissing
    | SeverityInvalid
    | FlagsInvalid
    | InTestCase(testIndex: nat, issue: TestCaseIssue)

  datatype RuleSetIssue =
    | NameMissing
    | VersionMissing
    | VersionNotSemantic
    | DescriptionMissing
    | RulesMissing
    | RulesEmpty
    | InRule(ruleIndex: nat, issue: RuleIssue)
    | DuplicateRuleId(id: string)

  datatype RuleSetWarning = AuthorMissing | TagsMissing

  datatype ValidationResult = ValidationResult(
    isValid: bool,
    errors: seq<RuleSetIssue>,
    warnings: seq<RuleSetWarning>)

  datatype TestResult = TestResult(
    passed: bool,
    total: nat,
    failed: seq<TestCase>,
    errors: seq<string>)

  // ---------------------------------------------------------------------------------------
  // validateTestCase
  // ---------------------------------------------------------------------------------------

  /** `validateTestCase`: the defects of one declared test case of `rule`. */
  function TestCaseIssues(e: Engine, rule: Rule, tc: TestCase): (r: seq<TestCaseIssue>) {
    (if Truthy(tc.input) then [] else [InputMissing])
    + (if Truthy(tc.expected) then [] else [ExpectedMissing])
    + (if tc.shouldMatch.Some? then [] else [ShouldMatchMissing])
    + (if Truthy(tc.input) && tc.expected.Some? && tc.shouldMatch.Some?
       then OracleIssues(e, rule, tc.input.value, tc.expected.value, tc.shouldMatch.value)
       else [])
  }

  /** The test-case oracle: match presence must equal `shouldMatch`, and a match must rewrite to `expected`. */
  function OracleIssues(e: Engine, rule: Rule, input: string, expected: string, shouldMatch: bool): (r: seq<TestCaseIssue>) {
    if !RuleCompiles(e, rule) then [TestingFailed(e.compileError(rule.pattern, FlagsOrGlobal(rule.flags)))]
    else
      var hasMatch := Matches(e, RuleRegex(rule), input);
      (if hasMatch != shouldMatch then [LogicError(shouldMatch, hasMatch)] else [])
      + (if shouldMatch && hasMatch && e.replaceAll(RuleRegex(rule), input, ReplacementText(rule)) != expected
         then [ReplacementMismatch] else [])
  }

  /** A test case the validator accepts, stated as one condition. */
  predicate TestCaseHolds(e: Engine, rule: Rule, tc: TestCase) {
    && Truthy(tc.input) && Truthy(tc.expected) && tc.shouldMatch.Some?
    && RuleCompiles(e, rule)
    && Matches(e, RuleRegex(rule), tc.input.value) == tc.shouldMatch.value
    && (tc.shouldMatch.value ==>
          e.replaceAll(RuleRegex(rule), tc.input.value, ReplacementText(rule)) == tc.expected.value)
  }

  lemma TestCaseIssuesEmptyIff(e: Engine, rule: Rule, tc: TestCase)
    ensures TestCaseIssues(e, rule, tc) == [] <==> TestCaseHolds(e, rule, tc)
  {
  }

  // ---------------------------------------------------------------------------------------
  // validateRule
  // ---------------------------------------------------------------------------------------

  function InTest(j: nat, issues: seq<TestCaseIssue>): (r: seq<RuleIssue>)
    ensures |r| == |issues|
    ensures forall k :: 0 <= k < |r| ==> r[k] == InTestCase(j, issues[k])
  {
    seq(|issues|, k requires 0 <= k < |issues| => InTestCase(j, issues[k]))
  }

  /** The issues of the first `n` test cases, in order. */
  function TestCaseProblems(e: Engine, rule: Rule, tcs: seq<TestCase>, n: nat): (r: seq<RuleIssue>)
    requires n <= |tcs|
  {
    if n == 0 then []
    else TestCaseProblems(e, rule, tcs, n - 1) + InTest(n - 1, TestCaseIssues(e, rule, tcs[n - 1]))
  }

  function IdIssues(r: Rule): (res: seq<RuleIssue>) {
    if r.id == "" then [IdMissing] else if !IsValidId(r.id) then [IdCharset] else []
  }

  function PatternIssues(e: Engine, r: Rule): (res: seq<RuleIssue>) {
    if r.pattern == "" then [PatternMissing]
    else if !RuleCompiles(e, r) then [PatternInvalid(e.compileError(r.pattern, FlagsOrGlobal(r.flags)))]
    else []
  }

  function ConfidenceIssues(r: Rule): (res: seq<RuleIssue>) {
    if r.confidence.None? then [ConfidenceMissing]
    else if r.confidence.value < 0.0 || r.confidence.value > 1.0 then [ConfidenceOutOfRange]
    else []
  }

  function CategoryIssues(r: Rule): (res: seq<RuleIssue>) {
    if !Truthy(r.category) then [CategoryMissing] else if r.category.value !in Categories then [CategoryInvalid] else []
  }

  function SeverityIssues(r: Rule): (res: seq<RuleIssue>) {
    if !Truthy(r.severity) then [SeverityMissing] else if r.severity.value !in Severities then [SeverityInvalid] else []
  }

  /** The checks on the required fields, in the order the code runs them. */
  function RequiredFieldIssues(e: Engine, r: Rule): (res: seq<RuleIssue>) {
    MatchFieldIssues(e, r) + ClassificationIssues(r)
  }

  /** Id, name, pattern and replacement: what the rule is and how it rewrites. */
  function MatchFieldIssues(e: Engine, r: Rule): (res: seq<RuleIssue>) {
    IdIssues(r)
    + (if r.name == "" then [RuleNameMissing] else [])
    + PatternIssues(e, r)
    + (if !Truthy(r.replacement) then [ReplacementMissing] else [])
  }

  /** Confidence, category and severity: how a match is classified. */
  function ClassificationIssues(r: Rule): (res: seq<RuleIssue>) {
    ConfidenceIssues(r) + CategoryIssues(r) + SeverityIssues(r)
  }

  /** Flags are optional; present flags must be drawn from `gimuy`. */
  function FlagsIssues(r: Rule): (res: seq<RuleIssue>) {
    if r.flags != "" && !IsSafeFlags(r.flags) then [FlagsInvalid] else []
  }

  /** `validateRule`: every defect of one rule, its test cases' defects last. */
  function RuleIssues(e: Engine, r: Rule): (res: seq<RuleIssue>) {
    RequiredFieldIssues(e, r)
    + FlagsIssues(r)
    + (if r.testCases.Some? then TestCaseProblems(e, r, r.testCases.value, |r.testCases.value|) else [])
  }

  /** A rule the validator accepts, stated as one condition. */
  predicate RuleAcceptable(e: Engine, r: Rule) {
    && IsValidId(r.id)
    && r.name != ""
    && r.pattern != "" && RuleCompiles(e, r)
    && Truthy(r.replacement)
    && r.confidence.Some? && 0.0 <= r.confidence.value <= 1.0
    && r.category.Some? && r.category.value in Categories
    && r.severity.Some? && r.severity.value in Severities
    && IsSafeFlags(r.flags)
    && (r.testCases.Some? ==> forall tc :: tc in r.testCases.value ==> TestCaseHolds(e, r, tc))
  }

  lemma {:induction false} TestCaseProblemsEmptyIff(e: Engine, rule: Rule, tcs: seq<TestCase>, n: nat)
    requires n <= |tcs|
    ensures TestCaseProblems(e, rule, tcs, n) == [] <==>
            forall j :: 0 <= j < n ==> TestCaseIssues(e, rule, tcs[j]) == []
  {
    if n > 0 {
      TestCaseProblemsEmptyIff(e, rule, tcs, n - 1);
      var last := TestCaseIssues(e, rule, tcs[n - 1]);
      assert |TestCaseProblems(e, rule, tcs, n)| == |TestCaseProblems(e, rule, tcs, n - 1)| + |last|;
    }
  }

  lemma MatchFieldsCleanIff(e: Engine, r: Rule)
    ensures MatchFieldIssues(e, r) == [] <==>
      IsValidId(r.id) && r.name != "" && r.pattern != "" && RuleCompiles(e, r) && Truthy(r.replacement)
  {
    assert |MatchFieldIssues(e, r)| == |IdIssues(r)| + (if r.name == "" then 1 else 0)
      + |PatternIssues(e, r)| + (if !Truthy(r.replacement) then 1 else 0);
  }

  lemma ClassificationCleanIff(r: Rule)
    ensures ClassificationIssues(r) == [] <==>
      r.confidence.Some? && 0.0 <= r.confidence.value <= 1.0 && r.category.Some? && r.category.value in Categories
      && r.severity.Some? && r.severity.value in Severities
  {
    assert |ClassificationIssues(r)| == |ConfidenceIssues(r)| + |CategoryIssues(r)| + |SeverityIssues(r)|;
  }

  lemma TestCasesCleanIff(e: Engine, r: Rule, tcs: seq<TestCase>)
    ensures TestCaseProblems(e, r, tcs, |tcs|) == [] <==> forall tc :: tc in tcs ==> TestCaseHolds(e, r, tc)
  {
    TestCaseProblemsEmptyIff(e, r, tcs, |tcs|);
    forall j | 0 <= j < |tcs| ensures TestCaseIssues(e, r, tcs[j]) == [] <==> TestCaseHolds(e, r, tcs[j]) {
      TestCaseIssuesEmptyIff(e, r, tcs[j]);
    }
    if TestCaseProblems(e, r, tcs, |tcs|) == [] {
      forall tc | tc in tcs ensures TestCaseHolds(e, r, tc) {
        var j :| 0 <= j < |tcs| && tcs[j] == tc;
      }
    }
  }

  /** A rule gets no error exactly when every field check and every declared test case passes. */
  lemma RuleIssuesEmptyIff(e: Engine, r: Rule)
    ensures RuleIssues(e, r) == [] <==> RuleAcceptable(e, r)
  {
    var tests := if r.testCases.Some? then TestCaseProblems(e, r, r.testCases.value, |r.testCases.value|) else [];
    assert RuleIssues(e, r) == MatchFieldIssues(e, r) + ClassificationIssues(r) + FlagsIssues(r) + tests;
    assert |RuleIssues(e, r)| == |MatchFieldIssues(e, r)| + |ClassificationIssues(r)| + |FlagsIssues(r)| + |tests|;
    MatchFieldsCleanIff(e, r);
    ClassificationCleanIff(r);
    assert FlagsIssues(r) == [] <==> IsSafeFlags(r.flags);
    if r.testCases.Some? {
      TestCasesCleanIff(e, r, r.testCases.value);
    }
  }

  /** `validateRule`, as the code runs it: required fields, flags, then one pass over the test cases. */
  method ValidateRule(e: Engine, r: Rule) returns (errors: seq<RuleIssue>)
    ensures errors == RuleIssues(e, r)
  {
    errors := ValidateMatchFields(e, r);
    var classificationErrors := ValidateClassification(r);
    errors := errors + classificationErrors;
    if r.flags != "" && !IsSafeFlags(r.flags) {
      errors := errors + [FlagsInvalid];
    }
    assert errors == RequiredFieldIssues(e, r) + FlagsIssues(r);
    if r.testCases.Some? {
      var testErrors := ValidateTestCases(e, r, r.testCases.value);
      errors := errors + testErrors;
    }
  }

  /** The first four "required fields" checks of `validateRule`. */
  method ValidateMatchFields(e: Engine, r: Rule) returns (errors: seq<RuleIssue>)
    ensures errors == MatchFieldIssues(e, r)
  {
    errors := [];
    if r.id == "" {
      errors := errors + [IdMissing];
    } else if !IsValidId(r.id) {
      errors := errors + [IdCharset];
    }
    assert errors == IdIssues(r);
    ghost var before := errors;
    if r.name == "" {
      errors := errors + [RuleNameMissing];
    }
    assert errors == before + (if r.name == "" then [RuleNameMissing] else []);
    before := errors;
    if r.pattern == "" {
      errors := errors + [PatternMissing];
    } else if !RuleCompiles(e, r) {
      errors := errors + [PatternInvalid(e.compileError(r.pattern, FlagsOrGlobal(r.flags)))];
    }
    assert errors == before + PatternIssues(e, r);
    if !Truthy(r.replacement) {
      errors := errors + [ReplacementMissing];
    }
  }

  /** The remaining "required fields" checks of `validateRule`. */
  method ValidateClassification(r: Rule) returns (errors: seq<RuleIssue>)
    ensures errors == ClassificationIssues(r)
  {
    errors := [];
    if r.confidence.None? {
      errors := errors + [ConfidenceMissing];
    } else if r.confidence.value < 0.0 || r.confidence.value > 1.0 {
      errors := errors + [ConfidenceOutOfRange];
    }
    assert errors == ConfidenceIssues(r);
    ghost var before := errors;
    if !Truthy(r.category) {
      errors := errors + [CategoryMissing];
    } else if r.category.value !in Categories {
      errors := errors + [CategoryInvalid];
    }
    assert errors == before + CategoryIssues(r);
    if !Truthy(r.severity) {
      errors := errors + [SeverityMissing];
    } else if r.severity.value !in Severities {
      errors := errors + [SeverityInvalid];
    }
  }

  /** The `testCases.forEach` pass of `validateRule`: each case's issues, tagged with its index. */
  method ValidateTestCases(e: Engine, r: Rule, tcs: seq<TestCase>) returns (errors: seq<RuleIssue>)
    ensures errors == TestCaseProblems(e, r, tcs, |tcs|)
  {
    errors := [];
    for j := 0 to |tcs|
      invariant errors == TestCaseProblems(e, r, tcs, j)
    {
      var testErrors := ValidateTestCase(e, r, tcs[j]);
      errors := errors + InTest(j, testErrors);
    }
  }

  /** `validateTestCase`, as the code runs it. */
  method ValidateTestCase(e: Engine, rule: Rule, tc: TestCase) returns (errors: seq<TestCaseIssue>)
    ensures errors == TestCaseIssues(e, rule, tc)
  {
    errors := [];
    if !Truthy(tc.input) {
      errors := errors + [InputMissing];
    }
    if !Truthy(tc.expected) {
      errors := errors + [ExpectedMissing];
    }
    if tc.shouldMatch.None? {
      errors := errors + [ShouldMatchMissing];
    }
    ghost var before := errors;
    if Truthy(tc.input) && tc.expected.Some? && tc.shouldMatch.Some? {
      if !RuleCompiles(e, rule) {
        errors := errors + [TestingFailed(e.compileError(rule.pattern, FlagsOrGlobal(rule.flags)))];
      } else {
        var regex := RuleRegex(rule);
        var hasMatch := Matches(e, regex, tc.input.value);
        if hasMatch != tc.shouldMatch.value {
          errors := errors + [LogicError(tc.shouldMatch.value, hasMatch)];
        }
        if tc.shouldMatch.value && hasMatch {
          var result := e.replaceAll(regex, tc.input.value, ReplacementText(rule));
          if result != tc.expected.value {
            errors := errors + [ReplacementMismatch];
          }
        }
      }
    }
  }

  // ---------------------------------------------------------------------------------------
  // validateRuleSet
  // ---------------------------------------------------------------------------------------

  function InRuleAt(i: nat, issues: seq<RuleIssue>): (r: seq<RuleSetIssue>)
    ensures |r| == |issues|
    ensures forall k :: 0 <= k < |r| ==> r[k] == InRule(i, issues[k])
  {
    seq(|issues|, k requires 0 <= k < |issues| => InRule(i, issues[k]))
  }

  /** The rule at `i` repeats a non-empty id that an earlier rule already used. */
  predicate DuplicateAt(rules: seq<Rule>, i: nat)
    requires i < |rules|
  {
    rules[i].id != "" && exists j :: 0 <= j < i && rules[j].id == rules[i].id
  }

  /** The non-empty ids among the first `n` rules: the `ruleIds` set of the loop. */
  ghost function SeenIds(rules: seq<Rule>, n: nat): (r: set<string>)
    requires n <= |rules|
  {
    if n == 0 then {}
    else SeenIds(rules, n - 1) + (if rules[n - 1].id != "" then {rules[n - 1].id} else {})
  }

  lemma {:induction false} SeenIdsMembers(rules: seq<Rule>, n: nat, id: string)
    requires n <= |rules|
    ensures id in SeenIds(rules, n) <==> id != "" && exists j :: 0 <= j < n && rules[j].id == id
  {
    if n > 0 {
      SeenIdsMembers(rules, n - 1, id);
      if rules[n - 1].id == id && id != "" {
        assert id in SeenIds(rules, n);
      }
      if id != "" && (exists j :: 0 <= j < n && rules[j].id == id) {
        var j :| 0 <= j < n && rules[j].id == id;
        if j < n - 1 {
          assert id in SeenIds(rules, n - 1);
        }
      }
    }
  }

  /**
   * One step of the loop: the seen set grows by the rule's id, and whether the rule gets a
   * duplicate-id error is decided by the ids seen before it.
   */
  lemma DuplicateIffSeen(rules: seq<Rule>, i: nat)
    requires i < |rules|
    ensures rules[i].id == "" ==> SeenIds(rules, i + 1) == SeenIds(rules, i)
    ensures rules[i].id != "" ==> SeenIds(rules, i + 1) == SeenIds(rules, i) + {rules[i].id}
    ensures DuplicateReport(rules, i)
            == if rules[i].id != "" && rules[i].id in SeenIds(rules, i) then [DuplicateRuleId(rules[i].id)] else []
  {
    SeenIdsMembers(rules, i, rules[i].id);
  }

  /** `validateRule` as a function value: the per-rule check the rule-set pass applies. */
  function RuleCheck(e: Engine): (r: Rule -> seq<RuleIssue>) {
    r => RuleIssues(e, r)
  }

  /**
   * The issues of the first `n` rules: each rule's own issues as `check` reports them, then
   * its duplicate-id error. The rule set's pass uses `RuleCheck(e)`.
   */
  function PerRuleIssues(check: Rule -> seq<RuleIssue>, rules: seq<Rule>, n: nat): (r: seq<RuleSetIssue>)
    requires n <= |rules|
  {
    if n == 0 then []
    else
      PerRuleIssues(check, rules, n - 1)
      + InRuleAt(n - 1, check(rules[n - 1]))
      + DuplicateReport(rules, n - 1)
  }

  /** The duplicate-id error the rule at `i` adds, if any. */
  function DuplicateReport(rules: seq<Rule>, i: nat): (r: seq<RuleSetIssue>)
    requires i < |rules|
  {
    if DuplicateAt(rules, i) then [DuplicateRuleId(rules[i].id)] else []
  }

  lemma PerRuleIssuesStep(e: Engine, rules: seq<Rule>, i: nat)
    requires i < |rules|
    ensures PerRuleIssues(RuleCheck(e), rules, i + 1)
            == PerRuleIssues(RuleCheck(e), rules, i) + (InRuleAt(i, RuleIssues(e, rules[i])) + DuplicateReport(rules, i))
  {
    assert RuleCheck(e)(rules[i]) == RuleIssues(e, rules[i]);
  }

  /** Name, version and description checks. */
  function HeaderIssues(rs: RuleSet): (r: seq<RuleSetIssue>) {
    (if rs.name == "" then [NameMissing] else [])
    + (if rs.version == "" then [VersionMissing] else if !IsSemVer(rs.version) then [VersionNotSemantic] else [])
    + (if rs.description == "" then [DescriptionMissing] else [])
  }

  /** The rules-array checks: missing, empty, or the per-rule pass. */
  function RulesIssues(e: Engine, rules: Option<seq<Rule>>): (r: seq<RuleSetIssue>) {
    match rules
    case None => [RulesMissing]
    case Some(rules) => if rules == [] then [RulesEmpty] else PerRuleIssues(RuleCheck(e), rules, |rules|)
  }

  function Warnings(rs: RuleSet): (r: seq<RuleSetWarning>) {
    (if rs.author == "" then [AuthorMissing] else [])
    + (if rs.tags.None? || rs.tags.value == [] then [TagsMissing] else [])
  }

  /** `validateRuleSet`: all errors, in the order the code pushes them, and the warnings. */
  function Validate(e: Engine, rs: RuleSet): (r: ValidationResult) {
    var errors := HeaderIssues(rs) + RulesIssues(e, rs.rules);
    ValidationResult(errors == [], errors, Warnings(rs))
  }

  /** The loop of `validateRuleSet` over a non-empty rules array, with the set of ids seen so far. */
  method ValidateRules(e: Engine, rules: seq<Rule>) returns (errors: seq<RuleSetIssue>)
    ensures errors == PerRuleIssues(RuleCheck(e), rules, |rules|)
  {
    errors := [];
    var ruleIds: set<string> := {};
    for i := 0 to |rules|
      invariant errors == PerRuleIssues(RuleCheck(e), rules, i)
      invariant ruleIds == SeenIds(rules, i)
    {
      var ruleErrors: seq<RuleSetIssue>;
      ruleErrors, ruleIds := ValidateRuleAt(e, rules, i, ruleIds);
      PerRuleIssuesStep(e, rules, i);
      errors := errors + ruleErrors;
    }
  }

  /** One pass of that loop: the rule's own errors, then the duplicate-id check against the seen ids. */
  method ValidateRuleAt(e: Engine, rules: seq<Rule>, i: nat, ruleIds: set<string>)
    returns (errors: seq<RuleSetIssue>, seen: set<string>)
    requires i < |rules| && ruleIds == SeenIds(rules, i)
    ensures errors == InRuleAt(i, RuleIssues(e, rules[i])) + DuplicateReport(rules, i)
    ensures seen == SeenIds(rules, i + 1)
  {
    var rule := rules[i];
    var ruleErrors := ValidateRule(e, rule);
    errors := InRuleAt(i, ruleErrors);
    seen := ruleIds;
    DuplicateIffSeen(rules, i);
    if rule.id != "" {
      if rule.id in seen {
        errors := errors + [DuplicateRuleId(rule.id)];
      }
      seen := seen + {rule.id};
    }
  }

  /** `validateRuleSet`, as the code runs it: one pass over the rules with a set of ids seen so far. */
  method ValidateRuleSet(e: Engine, rs: RuleSet) returns (result: ValidationResult)
    ensures result == Validate(e, rs)
    ensures result.isValid <==> result.errors == []
  {
    var errors: seq<RuleSetIssue> := [];
    var warnings: seq<RuleSetWarning> := [];
    if rs.name == "" {
      errors := errors + [NameMissing];
    }
    ghost var checked := errors;
    if rs.version == "" {
      errors := errors + [VersionMissing];
    } else if !IsSemVer(rs.version) {
      errors := errors + [VersionNotSemantic];
    }
    assert errors == checked + (if rs.version == "" then [VersionMissing] else if !IsSemVer(rs.version) then [VersionNotSemantic] else []);
    if rs.description == "" {
      errors := errors + [DescriptionMissing];
    }
    assert errors == HeaderIssues(rs);
    ghost var header := errors;
    if rs.rules.None? {
      errors := errors + [RulesMissing];
    } else if rs.rules.value == [] {
      errors := errors + [RulesEmpty];
    } else {
      var ruleErrors := ValidateRules(e, rs.rules.value);
      errors := errors + ruleErrors;
    }
    assert errors == header + RulesIssues(e, rs.rules);
    if rs.author == "" {
      warnings := warnings + [AuthorMissing];
    }
    if rs.tags.None? || rs.tags.value == [] {
      warnings := warnings + [TagsMissing];
    }
    assert warnings == Warnings(rs);
    result := ValidationResult(|errors| == 0, errors, warnings);
  }

  // ---------------------------------------------------------------------------------------
  // testRule and testRuleSet
  // ---------------------------------------------------------------------------------------

  /**
   * `testRule`: whether one test case passes. A pattern that does not compile, or a missing
   * input (`undefined.match` throws), is caught and reported as a failure.
   */
  function TestRulePasses(e: Engine, rule: Rule, tc: TestCase): (r: bool) {
    if !RuleCompiles(e, rule) || tc.input.None? then false
    else
      var hasMatch := Matches(e, RuleRegex(rule), tc.input.value);
      if tc.shouldMatch != Some(hasMatch) then false
      else if tc.shouldMatch.value && hasMatch then
        tc.expected == Some(e.replaceAll(RuleRegex(rule), tc.input.value, ReplacementText(rule)))
      else true
  }

  function CasesOf(r: Rule): (res: seq<TestCase>) {
    if r.testCases.Some? then r.testCases.value else []
  }

  /** The failing cases among the first `n` of `tcs`, in order. */
  function FailingCases(e: Engine, rule: Rule, tcs: seq<TestCase>, n: nat): (r: seq<TestCase>)
    requires n <= |tcs|
  {
    if n == 0 then []
    else FailingCases(e, rule, tcs, n - 1) + (if TestRulePasses(e, rule, tcs[n - 1]) then [] else [tcs[n - 1]])
  }

  /** The failing cases of the first `n` rules, in encounter order. */
  function FailedAcross(e: Engine, rules: seq<Rule>, n: nat): (r: seq<TestCase>)
    requires n <= |rules|
  {
    if n == 0 then []
    else FailedAcross(e, rules, n - 1) + FailingCases(e, rules[n - 1], CasesOf(rules[n - 1]), |CasesOf(rules[n - 1])|)
  }

  /** The number of declared test cases in the first `n` rules. */
  function CaseCount(rules: seq<Rule>, n: nat): (r: nat)
    requires n <= |rules|
  {
    if n == 0 then 0 else CaseCount(rules, n - 1) + |CasesOf(rules[n - 1])|
  }

  /** `testRuleSet`; `None` when the rule set has no `rules` array (`for...of` over `undefined` throws). */
  function TestRun(e: Engine, rs: RuleSet): (r: Option<TestResult>) {
    if rs.rules.None? then None
    else
      var rules := rs.rules.value;
      var failed := FailedAcross(e, rules, |rules|);
      Some(TestResult(failed == [], CaseCount(rules, |rules|), failed, []))
  }

  /** `testRuleSet`, as the code runs it: nested loops that count every case and collect the failing ones. */
  method TestRuleSet(e: Engine, rs: RuleSet) returns (result: Option<TestResult>)
    ensures result == TestRun(e, rs)
  {
    if rs.rules.None? {
      return None;
    }
    var rules := rs.rules.value;
    var passed := true;
    var total: nat := 0;
    var failed: seq<TestCase> := [];
    var errors: seq<string> := [];
    for i := 0 to |rules|
      invariant total == CaseCount(rules, i)
      invariant failed == FailedAcross(e, rules, i)
      invariant passed <==> failed == []
    {
      var rule := rules[i];
      if rule.testCases.Some? {
        var tcs := rule.testCases.value;
        for j := 0 to |tcs|
          invariant total == CaseCount(rules, i) + j
          invariant failed == FailedAcross(e, rules, i) + FailingCases(e, rule, tcs, j)
          invariant passed <==> failed == []
        {
          total := total + 1;
          var testPassed := TestRulePasses(e, rule, tcs[j]);
          if !testPassed {
            passed := false;
            failed := failed + [tcs[j]];
          }
        }
      }
    }
    result := Some(TestResult(passed, total, failed, errors));
  }
}
