/**
 * The registry-aware redaction pipeline (`EnhancedPIIDetector`): the same built-in blocks and
 * custom patterns as `PIIDetector`, then every enabled registry rule in registry order.
 * Unlike the earlier phases, a registry rule looks at the RUNNING redacted text, and a rule
 * whose regex does not compile is skipped instead of aborting the call.
 */
module EnhancedDetector {
  import opened Wrappers
  import opened Seqs
  import opened RegexOracle
  import opened Types
  import opened RuleModel
  import opened JsMap
  import opened RuleRegistry
  import opened Detector

  /** One registry rule: compiled with `flags || 'g'`, matched and replaced on the running text. */
  function RegistryStep(e: Engine, st: Scan, r: Rule): (res: Scan) {
    if !RuleCompiles(e, r) then st
    else
      var matches := e.matchCount(RuleRegex(r), st.cleanedText);
      if matches > 0 then
        Scan(e.replaceAll(RuleRegex(r), st.cleanedText, ReplacementText(r)), st.detectedTypes + [r.name], st.redactedCount + matches)
      else st
  }

  function RunRegistry(e: Engine, st: Scan, rules: seq<Rule>): (r: Scan) {
    if rules == [] then st
    else RegistryStep(e, RunRegistry(e, st, rules[..|rules| - 1]), rules[|rules| - 1])
  }

  /** The query `detect` makes: `getRules({ enabled: true })`. */
  const EnabledOnly: RuleFilter := RuleFilter(Some(true), "", "", None)

  /** The rules `detect` applies: the registry's values that are enabled, in insertion order. */
  function EnabledRules(rules: OrderedMap<Rule>): (r: seq<Rule>)
    requires rules.Valid()
  {
    Filter(rules.Values(), AdmitsFn(Some(EnabledOnly)))
  }

  /** What `detect` resolves to, or the error it rejects with, given the enabled registry rules. */
  function EnhancedSpec(e: Engine, config: PIIDetectionConfig, registryRules: seq<Rule>, text: string)
    : Result<PIIDetectionResult, string>
  {
    var failure := CompileFailure(e, config.customPatterns);
    if failure.Some? then Failure(failure.value)
    else Success(Finish(RunRegistry(e, RunGated(e, text, Start(text), StaticPhases(config)), registryRules)))
  }

  lemma RunRegistryStep(e: Engine, st: Scan, rules: seq<Rule>, i: nat)
    requires i < |rules|
    ensures RunRegistry(e, st, rules[..i + 1]) == RegistryStep(e, RunRegistry(e, st, rules[..i]), rules[i])
  {
    assert rules[..i + 1][..i] == rules[..i];
  }

  class EnhancedPIIDetector {
    const config: PIIDetectionConfig
    const ruleManager: RuleManager

    /** Uses the registry it is given, or a fresh empty one over the default rule directory. */
    constructor(config: PIIDetectionConfig, ruleManager: Option<RuleManager>, defaultRulesDir: string)
      requires ruleManager.Some? ==> ruleManager.value.Valid()
      ensures this.config == config
      ensures ruleManager.Some? ==> this.ruleManager == ruleManager.value
      ensures ruleManager.None? ==>
        fresh(this.ruleManager) && this.ruleManager.State() == EmptyRegistry() &&
        this.ruleManager.rulesDir == defaultRulesDir
      ensures this.ruleManager.Valid()
    {
      this.config := config;
      if ruleManager.Some? {
        this.ruleManager := ruleManager.value;
      } else {
        this.ruleManager := new RuleManager(defaultRulesDir);
      }
    }

    /** `loadRules`: delegates to the registry. */
    method LoadRules(e: Engine, dirs: RuleDirectories)
      requires ruleManager.Valid()
      modifies ruleManager
      ensures ruleManager.Valid() && ruleManager.State() == LoadAll(e, old(ruleManager.State()), dirs)
    {
      ruleManager.LoadRules(e, dirs);
    }

    /** `detect`: the static pipeline, then every enabled registry rule on the running text. */
    method Detect(e: Engine, text: string) returns (result: Result<PIIDetectionResult, string>)
      requires ruleManager.Valid()
      ensures result == EnhancedSpec(e, config, EnabledRules(ruleManager.rules), text)
    {
      var st := PIIDetector.RedactBuiltins(e, text, BuiltinPhases(config));
      var outcome := PIIDetector.RedactCustom(e, text, config.customPatterns, st);
      if outcome.Failure? {
        return Failure(outcome.error);
      }
      RunGatedAppend(e, text, Start(text), BuiltinPhases(config), CustomPhases(config.customPatterns));
      st := outcome.value;
      ghost var afterStatic := st;

      var communityRules := ruleManager.GetRules(Some(EnabledOnly));
      for i := 0 to |communityRules|
        invariant st == RunRegistry(e, afterStatic, communityRules[..i])
      {
        RunRegistryStep(e, afterStatic, communityRules, i);
        st := ApplyRule(e, communityRules[i], st);
      }
      assert communityRules[..|communityRules|] == communityRules;
      result := Success(Finish(st));
    }

    /** The `try` block around one rule: a regex that does not compile leaves the state as it was. */
    static method ApplyRule(e: Engine, rule: Rule, st: Scan) returns (next: Scan)
      ensures next == RegistryStep(e, st, rule)
    {
      next := st;
      if e.compiles(rule.pattern, FlagsOrGlobal(rule.flags)) {
        var regex := Regex(rule.pattern, FlagsOrGlobal(rule.flags));
        var matches := e.matchCount(regex, st.cleanedText);
        if matches > 0 {
          next := Scan(e.replaceAll(regex, st.cleanedText, ReplacementText(rule)), st.detectedTypes + [rule.name], st.redactedCount + matches);
        }
      }
    }

    /** `getRuleManager`: the registry this detector consults, the very object it was given. */
    function GetRuleManager(): (m: RuleManager)
      ensures m == ruleManager
    {
      ruleManager
    }
  }
}
