/** What the registry-aware pipeline promises, and how it relates to the static one. */
module EnhancedFacts {
  import opened Wrappers
  import opened Seqs
  import opened RegexOracle
  import opened Types
  import opened RuleModel
  import opened JsMap
  import opened RuleRegistry
  import opened RegistryFacts
  import opened Detector
  import opened DetectorFacts
  import opened EnhancedDetector

  /** With no enabled registry rule the enhanced pipeline is the static one. */
  lemma EmptyRegistryIsStatic(e: Engine, config: PIIDetectionConfig, text: string)
    ensures EnhancedSpec(e, config, [], text) == DetectSpec(e, config, text)
  {
  }

  /** Registry rules never make `detect` fail: it fails exactly as the static pipeline does. */
  lemma RegistryNeverFails(e: Engine, config: PIIDetectionConfig, rules: seq<Rule>, text: string)
    ensures EnhancedSpec(e, config, rules, text).Failure? <==> DetectSpec(e, config, text).Failure?
    ensures EnhancedSpec(e, config, rules, text).Failure? ==>
      EnhancedSpec(e, config, rules, text).error == DetectSpec(e, config, text).error
  {
  }

  lemma {:induction false} RunRegistryAppend(e: Engine, st: Scan, a: seq<Rule>, b: seq<Rule>)
    ensures RunRegistry(e, st, a + b) == RunRegistry(e, RunRegistry(e, st, a), b)
  {
    if b == [] {
      assert a + b == a;
    } else {
      assert (a + b)[..|a + b| - 1] == a + b[..|b| - 1];
      RunRegistryAppend(e, st, a, b[..|b| - 1]);
    }
  }

  /** Whether a rule fires on the text the earlier rules left behind. */
  predicate RuleFires(e: Engine, running: string, r: Rule) {
    RuleCompiles(e, r) && e.matchCount(RuleRegex(r), running) > 0
  }

  /** The labels the registry pass adds, each rule looking at the text the rules before it left. */
  function RegistryTags(e: Engine, st: Scan, rules: seq<Rule>): (r: seq<string>) {
    if rules == [] then []
    else
      var init := rules[..|rules| - 1];
      var last := rules[|rules| - 1];
      RegistryTags(e, st, init) + (if RuleFires(e, RunRegistry(e, st, init).cleanedText, last) then [last.name] else [])
  }

  /** The matches the registry pass adds, counted the same way. */
  function RegistryMatches(e: Engine, st: Scan, rules: seq<Rule>): (r: nat) {
    if rules == [] then 0
    else
      var init := rules[..|rules| - 1];
      var last := rules[|rules| - 1];
      var running := RunRegistry(e, st, init).cleanedText;
      RegistryMatches(e, st, init) + (if RuleFires(e, running, last) then e.matchCount(RuleRegex(last), running) else 0)
  }

  /** The registry pass appends its labels and adds its matches to what the static phases found. */
  lemma {:induction false} RunRegistryLedger(e: Engine, st: Scan, rules: seq<Rule>)
    ensures RunRegistry(e, st, rules).detectedTypes == st.detectedTypes + RegistryTags(e, st, rules)
    ensures RunRegistry(e, st, rules).redactedCount == st.redactedCount + RegistryMatches(e, st, rules)
  {
    if rules != [] {
      RunRegistryLedger(e, st, rules[..|rules| - 1]);
    }
  }

  /**
   * The enhanced report over all three phases: labels of the static phases then of the
   * registry rules, each once; `hasPII` when any of them fired; the raw sum of their matches.
   */
  lemma EnhancedReport(e: Engine, config: PIIDetectionConfig, rules: seq<Rule>, text: string)
    requires EnhancedSpec(e, config, rules, text).Success?
    ensures var r := EnhancedSpec(e, config, rules, text).value;
      var phases := StaticPhases(config);
      var st := RunGated(e, text, Start(text), phases);
      && r.detectedTypes == Dedup(FiredTags(e, text, phases) + RegistryTags(e, st, rules))
      && NoDuplicates(r.detectedTypes)
      && (r.hasPII <==> (exists i :: 0 <= i < |phases| && Fires(e, text, phases[i])) || RegistryTags(e, st, rules) != [])
      && r.redactedCount == MatchTotal(e, text, phases) + RegistryMatches(e, st, rules)
  {
    ThreePhaseReport(e, text, StaticPhases(config), rules);
  }

  lemma ThreePhaseReport(e: Engine, text: string, phases: seq<Phase>, rules: seq<Rule>)
    ensures var st := RunGated(e, text, Start(text), phases);
      var r := Finish(RunRegistry(e, st, rules));
      && r.detectedTypes == Dedup(FiredTags(e, text, phases) + RegistryTags(e, st, rules))
      && NoDuplicates(r.detectedTypes)
      && (r.hasPII <==> (exists i :: 0 <= i < |phases| && Fires(e, text, phases[i])) || RegistryTags(e, st, rules) != [])
      && r.redactedCount == MatchTotal(e, text, phases) + RegistryMatches(e, st, rules)
  {
    var st := RunGated(e, text, Start(text), phases);
    RunGatedLedger(e, text, Start(text), phases);
    RunRegistryLedger(e, st, rules);
    FiredTagsEmpty(e, text, phases);
    var all := FiredTags(e, text, phases) + RegistryTags(e, st, rules);
    assert [] + FiredTags(e, text, phases) == FiredTags(e, text, phases);
    assert st.detectedTypes == FiredTags(e, text, phases);
    assert RunRegistry(e, st, rules).detectedTypes == all;
    assert |all| > 0 <==> FiredTags(e, text, phases) != [] || RegistryTags(e, st, rules) != [];
  }

  /** A rule whose regex does not compile is skipped, and the rules after it still run. */
  lemma SkipsUncompilableRule(e: Engine, st: Scan, rules: seq<Rule>, k: nat)
    requires k < |rules| && !RuleCompiles(e, rules[k])
    ensures RunRegistry(e, st, rules) == RunRegistry(e, st, rules[..k] + rules[k + 1..])
  {
    assert rules == rules[..k] + [rules[k]] + rules[k + 1..];
    RunRegistryAppend(e, st, rules[..k] + [rules[k]], rules[k + 1..]);
    RunRegistryAppend(e, st, rules[..k], [rules[k]]);
    RunRegistryAppend(e, st, rules[..k], rules[k + 1..]);
    assert (rules[..k] + [rules[k]])[..k] == rules[..k];
  }

  /**
   * The registry pass only appends: earlier labels and count are kept, and every new label is
   * the name of a rule whose regex compiles.
   */
  lemma {:induction false} RunRegistryExtends(e: Engine, st: Scan, rules: seq<Rule>)
    ensures var res := RunRegistry(e, st, rules);
      && st.detectedTypes <= res.detectedTypes
      && st.redactedCount <= res.redactedCount
      && forall j :: |st.detectedTypes| <= j < |res.detectedTypes| ==>
           exists i :: 0 <= i < |rules| && RuleCompiles(e, rules[i]) && rules[i].name == res.detectedTypes[j]
  {
    if rules == [] {
      assert RunRegistry(e, st, rules) == st;
    } else {
      var init := rules[..|rules| - 1];
      var last := rules[|rules| - 1];
      RunRegistryExtends(e, st, init);
      var mid := RunRegistry(e, st, init);
      var res := RunRegistry(e, st, rules);
      assert res == RegistryStep(e, mid, last);
      assert res == mid || res.detectedTypes == mid.detectedTypes + [last.name];
      assert res.detectedTypes[..|mid.detectedTypes|] == mid.detectedTypes;
      assert res.detectedTypes[..|st.detectedTypes|] == mid.detectedTypes[..|st.detectedTypes|] == st.detectedTypes;
      forall j | |st.detectedTypes| <= j < |res.detectedTypes|
        ensures exists i :: 0 <= i < |rules| && RuleCompiles(e, rules[i]) && rules[i].name == res.detectedTypes[j]
      {
        if j < |mid.detectedTypes| {
          assert res.detectedTypes[j] == mid.detectedTypes[j];
          var i :| 0 <= i < |init| && RuleCompiles(e, init[i]) && init[i].name == mid.detectedTypes[j];
          assert rules[i] == init[i];
          assert 0 <= i < |rules| && RuleCompiles(e, rules[i]) && rules[i].name == res.detectedTypes[j];
        } else {
          assert res != mid;
          assert RuleCompiles(e, last) && res.detectedTypes == mid.detectedTypes + [last.name];
          var i := |rules| - 1;
          assert 0 <= i < |rules| && RuleCompiles(e, rules[i]) && rules[i].name == res.detectedTypes[j];
        }
      }
    }
  }

  /**
   * On success, the enhanced report contains the static report: every static label, at least
   * the static count; any further label names a registry rule that compiles.
   */
  lemma EnhancedExtendsStatic(e: Engine, config: PIIDetectionConfig, rules: seq<Rule>, text: string)
    requires DetectSpec(e, config, text).Success?
    ensures EnhancedSpec(e, config, rules, text).Success?
    ensures var s := DetectSpec(e, config, text).value;
      var r := EnhancedSpec(e, config, rules, text).value;
      && (forall l :: l in s.detectedTypes ==> l in r.detectedTypes)
      && s.redactedCount <= r.redactedCount
      && (s.hasPII ==> r.hasPII)
      && forall l :: l in r.detectedTypes ==>
           l in s.detectedTypes || exists i :: 0 <= i < |rules| && RuleCompiles(e, rules[i]) && rules[i].name == l
  {
    var st := RunGated(e, text, Start(text), StaticPhases(config));
    var res := RunRegistry(e, st, rules);
    RunRegistryExtends(e, st, rules);
    forall l | l in Dedup(st.detectedTypes)
      ensures l in Dedup(res.detectedTypes)
    {
      DedupMembers(st.detectedTypes, l);
      DedupMembers(res.detectedTypes, l);
    }
    forall l | l in Dedup(res.detectedTypes)
      ensures l in Dedup(st.detectedTypes) || exists i :: 0 <= i < |rules| && RuleCompiles(e, rules[i]) && rules[i].name == l
    {
      DedupMembers(st.detectedTypes, l);
      DedupMembers(res.detectedTypes, l);
      var j :| 0 <= j < |res.detectedTypes| && res.detectedTypes[j] == l;
      if j < |st.detectedTypes| {
        assert st.detectedTypes[j] == l;
      }
    }
  }

  /** `getRules({ enabled: true })` lists exactly the registry's enabled rules. */
  lemma EnabledRulesMembers(m: OrderedMap<Rule>, r: Rule)
    requires m.Valid()
    ensures r in EnabledRules(m) <==> r in m.Values() && r.enabled == Some(true)
  {
    GetRulesMembers(m.Values(), Some(EnabledOnly), r);
  }

  // ---------------------------------------------------------------------------------------
  // The scenarios the repository's own examples exercise.
  // ---------------------------------------------------------------------------------------

  /** The one rule of the example rule file. */
  const TestPattern := Rule("test_pattern", "Test Pattern", "Test pattern for unit testing", @"TEST-\d{4}", "g",
    Some("[REDACTED_TEST]"), Some(0.9), Some("custom"), Some("low"), Some(true), None)

  /** Text that only the registry rule matches: it alone is reported, with one redaction. */
  lemma RegistryRuleOnly(e: Engine, text: string)
    requires forall i :: 0 <= i < 6 ==> e.matchCount(BuiltinRegex(BuiltinOrder[i]), text) == 0
    requires RuleCompiles(e, TestPattern)
    requires e.matchCount(RuleRegex(TestPattern), text) == 1
    ensures EnhancedSpec(e, AllOn(), [TestPattern], text) == Success(PIIDetectionResult(
      true, ["Test Pattern"], e.replaceAll(RuleRegex(TestPattern), text, "[REDACTED_TEST]"), 1))
  {
    var phases := StaticPhases(AllOn());
    forall i | 0 <= i < |phases|
      ensures !Fires(e, text, phases[i])
    {
      BuiltinPhaseAt(AllOn(), i);
    }
    RunGatedQuiet(e, text, Start(text), phases);
    RunRegistryStep(e, Start(text), [TestPattern], 0);
    assert [TestPattern][..0] == [] && [TestPattern][..1] == [TestPattern];
    var st := RunRegistry(e, Start(text), [TestPattern]);
    assert st == Scan(e.replaceAll(RuleRegex(TestPattern), text, "[REDACTED_TEST]"), ["Test Pattern"], 1);
    DedupOfDistinct(["Test Pattern"]);
  }

  /**
   * One e-mail address and one rule match: the e-mail is redacted on the original text, the
   * rule then runs on the redacted text; both labels, two redactions.
   */
  lemma BuiltinThenRegistryRule(e: Engine, text: string)
    requires forall i :: 0 <= i < 6 && i != 2 ==> e.matchCount(BuiltinRegex(BuiltinOrder[i]), text) == 0
    requires e.matchCount(BuiltinRegex(Email), text) == 1
    requires RuleCompiles(e, TestPattern)
    requires e.matchCount(RuleRegex(TestPattern), e.replaceAll(BuiltinRegex(Email), text, BuiltinToken(Email))) == 1
    ensures var r := EnhancedSpec(e, AllOn(), [TestPattern], text);
      && r.Success?
      && r.value.hasPII && "Email" in r.value.detectedTypes && "Test Pattern" in r.value.detectedTypes
      && r.value.redactedCount == 2
      && r.value.cleanedText == e.replaceAll(RuleRegex(TestPattern),
           e.replaceAll(BuiltinRegex(Email), text, BuiltinToken(Email)), "[REDACTED_TEST]")
  {
    var mid := Scan(e.replaceAll(BuiltinRegex(Email), text, BuiltinToken(Email)), ["Email"], 1);
    EmailOnlyStatic(e, text);
    RegistryAfter(e, mid);
  }

  /** The static phases of the example: only the e-mail phase fires. */
  lemma EmailOnlyStatic(e: Engine, text: string)
    requires forall i :: 0 <= i < 6 && i != 2 ==> e.matchCount(BuiltinRegex(BuiltinOrder[i]), text) == 0
    requires e.matchCount(BuiltinRegex(Email), text) == 1
    ensures RunGated(e, text, Start(text), StaticPhases(AllOn())) ==
      Scan(e.replaceAll(BuiltinRegex(Email), text, BuiltinToken(Email)), ["Email"], 1)
  {
    var phases := StaticPhases(AllOn());
    forall i | 0 <= i < |phases| && i != 2
      ensures !Fires(e, text, phases[i])
    {
      BuiltinPhaseAt(AllOn(), i);
    }
    BuiltinPhaseAt(AllOn(), 2);
    OnlyOneFires(e, text, Start(text), phases, 2);
  }

  /** The example rule applied after the e-mail redaction. */
  lemma RegistryAfter(e: Engine, mid: Scan)
    requires mid.detectedTypes == ["Email"] && mid.redactedCount == 1
    requires RuleCompiles(e, TestPattern)
    requires e.matchCount(RuleRegex(TestPattern), mid.cleanedText) == 1
    ensures Finish(RunRegistry(e, mid, [TestPattern])) == PIIDetectionResult(
      true, ["Email", "Test Pattern"], e.replaceAll(RuleRegex(TestPattern), mid.cleanedText, "[REDACTED_TEST]"), 2)
  {
    RunRegistryStep(e, mid, [TestPattern], 0);
    assert [TestPattern][..0] == [] && [TestPattern][..1] == [TestPattern];
    DedupOfDistinct(["Email", "Test Pattern"]);
  }
}
