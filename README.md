# llm-firewall PII redaction core, in Dafny

This project models the core of llm-firewall, a proxy that redacts personal data from requests
before they reach a language-model API:

- **Rule validator (`RuleValidator`).** It collects every defect of a rule set: header fields,
  each rule's fields, duplicate ids and each declared test case. Its second entry point only runs
  the test cases and reports the ones that fail.
- **Rule registry (`RuleManager`).** It loads rule sets from the `core`, `community` and `vendor`
  rule directories, checked by a separate load-time validator. It keeps rules and rule sets in two
  insertion-ordered maps keyed `source:set` and `source:set:id`. It answers filtered queries,
  reports metadata and enables or disables rules.
- **Static redaction engine (`PIIDetector.detect`).** Six built-in categories run in a fixed
  order, each gated by its configuration switch, then the inline custom patterns. The result is
  the redacted text, the labels without repeats, `hasPII` and the number of matches.
- **Enhanced engine (`EnhancedPIIDetector.detect`).** It runs the same two phases, then every
  enabled registry rule on the running text. A rule that does not compile is skipped.
- **Configuration manager (`ConfigManager`).** It merges the defaults with a custom file or with
  environment variables. Updates later merge over the stored configuration.

## Modelling choices

- **Regular expressions are an oracle.** `RegexOracle.Engine` is a parameter of every operation
  that compiles, matches or replaces. Every lemma therefore holds for every engine. The one fact
  the code relies on, that a pattern with no match leaves the text unchanged under `replace`, is
  the predicate `Sound`. It is required only where it is used.
- **Regexes the validator applies itself are stated exactly:** `^\d+\.\d+\.\d+$`,
  `^[a-zA-Z0-9_-]+$` and `^[gimuy]*$`.
- **Imperative code stays imperative.** Each such operation is a method with loops or guarded
  blocks, proved equal to a specification function. What the source promises is proved about
  those functions. The state the source mutates lives in the fields of the classes
  `RuleManager`, `PIIDetector`, `EnhancedPIIDetector` and `ConfigManager`.
- **JavaScript values:**
  - A `Map` is `JsMap.OrderedMap`: a key list plus a map. `set` keeps an existing key in place.
  - A rule's `replacement`, `category` and `severity` are `Option<string>` and `enabled` is
    `Option<bool>`, because the code tells an absent value apart from a present one:
    - `replace(re, undefined)` inserts the text `undefined` (`ReplacementText`).
    - An absent category or severity is counted under the property name `undefined`
      (`PropertyKey`).
    - An absent `enabled` is neither `=== true` nor `=== false`. Such a rule passes neither
      `getRules({ enabled: true })` nor `getRules({ enabled: false })`, is not counted as
      enabled, and is not applied by the enhanced detector.
  - Any other absent string is `""`, since truthiness is all the code checks of it.
  - `Option` is used where the code tells `undefined` apart from a falsy value.
  - `parseInt` gives `None` for `NaN`.
- **Outside inputs are parameters:**
  - the rule directories, as the list of file names with what each file parses to;
  - the parsed default configuration and the parsed configuration files that exist;
  - the environment, as a map.

Behaviour of the code worth noting:

- In `src/pii/detector.ts:49-112` every built-in and custom pattern is matched against the
  ORIGINAL text; only the replacement works on the running text. Counts and labels therefore do
  not depend on the rewriting (`DetectorFacts.DetectIgnoresRewrites`). Registry rules, in
  contrast, are matched against the running text.
- A custom pattern that does not compile makes `detect` throw. The model returns `Failure` with
  the first such pattern's error (`DetectorFacts.DetectFailsIff`).
- The counting records of `getMetadata` are plain objects (`src/rules/index.ts:229-234`), so a
  category or severity that names a property of `Object.prototype` is not an ordinary key:
  - `__proto__` is ignored, since its setter drops a string (`RegistryFacts.ProtoCategoryUncounted`);
  - an inherited method such as `constructor` starts from the method's source text, and `+ 1`
    concatenates onto it (`RegistryFacts.ConstructorCategoryConcatenated`).
  The record's values are `Tallied`: `Count(n)` for a number, `Concatenated(source, ones)` for
  such a string.

## Model

| member | source | states |
|---|---|---|
| Validator.IsSemVerIff | src/rules/validator.ts:37 | the version check accepts exactly the strings `digits.digits.digits` |
| Validator.TestCaseIssuesEmptyIff | src/rules/validator.ts:150-188 | a test case gets no error iff input and expected are non-empty, shouldMatch is given, the pattern compiles, match presence equals shouldMatch and a required match rewrites to expected, with an absent replacement inserting `undefined` |
| Validator.MatchFieldsCleanIff | src/rules/validator.ts:87-110 | id, name, pattern and replacement raise no error iff the id is non-empty over `[A-Za-z0-9_-]`, name and replacement are non-empty and the pattern is non-empty and compiles with `flags \|\| 'g'` |
| Validator.ClassificationCleanIff | src/rules/validator.ts:112-128 | confidence, category and severity raise no error iff confidence is present and in [0, 1] and category and severity are among the allowed values |
| Validator.TestCaseProblemsEmptyIff | src/rules/validator.ts:135-145 | the test-case pass over the first n cases reports nothing iff each of those cases is clean |
| Validator.TestCasesCleanIff | src/rules/validator.ts:135-145 | the test-case pass reports nothing iff every declared case is accepted |
| Validator.RuleIssuesEmptyIff | src/rules/validator.ts:83-148 | a rule gets no error iff every field check and every declared test case passes |
| Validator.ValidateRule | src/rules/validator.ts:83-148 | the method pushes exactly the rule's issues, in the order the code checks them |
| Validator.ValidateMatchFields | src/rules/validator.ts:87-110 | the first four checks push exactly their issues |
| Validator.ValidateClassification | src/rules/validator.ts:112-128 | the confidence, category and severity checks push exactly their issues |
| Validator.ValidateTestCases | src/rules/validator.ts:135-145 | the `forEach` over test cases pushes each case's issues, tagged with its index, in order |
| Validator.ValidateTestCase | src/rules/validator.ts:150-188 | the method returns exactly the test case's issues (an absent replacement inserts `undefined`) |
| Validator.SeenIdsMembers | src/rules/validator.ts:51-63 | after n rules, the seen-id set holds exactly the non-empty ids among them |
| Validator.DuplicateIffSeen | src/rules/validator.ts:57-63 | a rule gets a duplicate error iff its non-empty id is already in the seen set; empty ids are never added |
| Validator.PerRuleIssuesStep | src/rules/validator.ts:52-64 | one loop pass appends the rule's tagged issues and then its duplicate error |
| Validator.ValidateRules | src/rules/validator.ts:50-64 | the loop with its id set produces exactly the per-rule errors |
| Validator.ValidateRuleAt | src/rules/validator.ts:53-63 | one pass returns the rule's errors and the seen set grown by its id |
| Validator.ValidateRuleSet | src/rules/validator.ts:26-81 | the method returns the errors and warnings in push order, and `isValid` holds iff there are no errors |
| Validator.TestRuleSet | src/rules/validator.ts:190-217 | the nested loops count every declared case and collect the failing ones in encounter order, rewriting with `undefined` when the replacement is absent; `passed` holds iff none failed; a set without a rules array throws |
| ValidatorFacts.InRuleAtMembers | src/rules/validator.ts:54-55 | a tagged issue belongs to rule i iff it carries index i and the rule has that issue |
| ValidatorFacts.PerRuleIssuesMembers | src/rules/validator.ts:50-64 | each error of the per-rule pass is a rule's own tagged issue or a duplicate id, and every such issue appears |
| ValidatorFacts.PerRuleIssuesEmptyIff | src/rules/validator.ts:50-64 | the per-rule pass reports nothing iff every rule is clean and no id repeats |
| ValidatorFacts.ErrorsMembers | src/rules/validator.ts:26-65 | the errors are exactly the header errors and the rules-array errors |
| ValidatorFacts.HeaderIssuesMembers | src/rules/validator.ts:31-43 | each header error is present exactly for its defect |
| ValidatorFacts.RulesIssuesMembers | src/rules/validator.ts:45-65 | a missing array gives only the missing error, an empty one only the empty error, and otherwise the per-rule errors |
| ValidatorFacts.PerRuleIssuesKinds | src/rules/validator.ts:50-64 | the per-rule pass reports only rule-level and duplicate-id errors |
| ValidatorFacts.HeaderErrorsIff | src/rules/validator.ts:31-48 | each header error, and each of the two rules-array errors, is reported iff its own defect holds; a missing version gives no format error |
| ValidatorFacts.RuleErrorIff | src/rules/validator.ts:52-55 | issue x of rule i is reported iff the rules array is present, i is in range and rule i has x; errors accumulate without short-circuit |
| ValidatorFacts.DuplicateErrorIff | src/rules/validator.ts:57-63 | a duplicate error for id is reported iff the id is non-empty and two rules share it |
| ValidatorFacts.HeaderCleanIff | src/rules/validator.ts:31-43 | no header error iff name and description are non-empty and the version is semantic |
| ValidatorFacts.NoDuplicateIff | src/rules/validator.ts:57-63 | no rule is flagged as a duplicate iff the non-empty ids are pairwise distinct |
| ValidatorFacts.EachRuleCleanIff | src/rules/validator.ts:52-55 | every rule has no issue iff every rule is acceptable |
| ValidatorFacts.PerRuleCleanIff | src/rules/validator.ts:50-64 | the per-rule pass is clean iff every rule is acceptable and the non-empty ids are distinct |
| ValidatorFacts.ValidIff | src/rules/validator.ts:26-81 | `isValid` holds iff the header is complete, the rules array is non-empty, every rule is acceptable and no id repeats |
| ValidatorFacts.WarningsDoNotAffectErrors | src/rules/validator.ts:67-80 | the author and the tags change neither the errors nor `isValid` |
| ValidatorFacts.WarningsIff | src/rules/validator.ts:67-74 | each warning is given iff its field is missing (tags also when empty) |
| ValidatorFacts.TestCaseHoldsImpliesPasses | src/rules/validator.ts:219-241 | a case the validator accepts also passes `testRule` |
| ValidatorFacts.PassingIsWeakerThanValid | src/rules/validator.ts:219-241 | some case passes `testRule` but is rejected by `validateTestCase` |
| ValidatorFacts.PassingCaseFixesOutput | src/rules/validator.ts:219-236 | under a sound engine, a passing case fixes the replacement output: `expected` when a match is required, the input itself otherwise |
| ValidatorFacts.FailingCasesMembers | src/rules/validator.ts:198-212 | the failing cases of one rule are exactly its cases that do not pass, at most their number |
| ValidatorFacts.FailedAcrossMembers | src/rules/validator.ts:198-214 | `failed` holds exactly the non-passing cases of all rules, at most the total |
| ValidatorFacts.TestRunReport | src/rules/validator.ts:190-217 | with a rules array the run yields a result whose failed cases are the non-passing ones, at most `total`, and `passed` iff none failed |
| ValidatorFacts.TestRunPassesIff | src/rules/validator.ts:190-217 | `passed` iff every declared case of every rule passes |
| ValidatorFacts.ValidImpliesTestsPass | src/rules/validator.ts:190-217 | a rule set the validator accepts passes its own test run |
| RuleRegistry.FilterChain | src/rules/index.ts:200-213 | applying the four filter stages one after another is filtering once by their conjunction |
| RuleRegistry.RuleManager.constructor | src/rules/index.ts:47-49 | a new manager has two empty maps and the given rule directory |
| RuleRegistry.RuleManager.LoadRules | src/rules/index.ts:51-82 | the new state is the old one after loading core, then community, then vendor, each only if present |
| RuleRegistry.RuleManager.LoadRulesFromDirectory | src/rules/index.ts:84-104 | files are taken in directory order; each `.json` file that parses and passes the loader is registered, the others are skipped |
| RuleRegistry.RuleManager.ValidateRuleSet | src/rules/index.ts:106-125 | accepts iff name, version and a rules array are present and every rule passes the loader's rule check |
| RuleRegistry.RuleManager.ValidateRule | src/rules/index.ts:127-156 | accepts iff id, name, pattern and replacement are non-empty, the pattern compiles, confidence is not outside [0, 1] and every declared case passes |
| RuleRegistry.RuleManager.ValidateTestCase | src/rules/index.ts:158-178 | the loader's case check equals the test runner's `testRule` |
| RuleRegistry.RuleManager.RegisterRuleSet | src/rules/index.ts:180-190 | the set is stored under `source:name`, then each rule under `source:name:id`, in array order |
| RuleRegistry.RuleManager.GetRules | src/rules/index.ts:192-216 | returns the registry's values in insertion order, narrowed by every predicate the filter supplies |
| RuleRegistry.RuleManager.GetRule | src/rules/index.ts:218-220 | returns a rule iff one is stored under the key, and it is that rule |
| RuleRegistry.RuleManager.GetRuleSet | src/rules/index.ts:222-224 | returns a rule set iff one is stored under the key, and it is that set |
| RuleRegistry.RuleManager.GetMetadata | src/rules/index.ts:226-243 | the counting loop yields the registry's metadata: totals, the count of rules whose flag is `true`, per-category and per-severity counting records keyed by the value or `undefined`, set keys |
| RuleRegistry.RuleManager.EnableRule | src/rules/index.ts:245-252 | reports whether the key exists; only that rule's `enabled` becomes true and the rule sets are unchanged |
| RuleRegistry.RuleManager.DisableRule | src/rules/index.ts:254-261 | reports whether the key exists; only that rule's `enabled` becomes false and the rule sets are unchanged |
| RuleRegistry.RuleManager.ReloadRules | src/rules/index.ts:263-267 | the new state is a fresh load from an empty registry |
| RegistryFacts.KeySuffixInjective | src/rules/index.ts:181-186 | two keys below one prefix are equal only for equal suffixes |
| RegistryFacts.KeySuffixDistinct | src/rules/index.ts:181-186 | different suffixes give different keys below one prefix |
| RegistryFacts.RuleKeyInjective | src/rules/index.ts:181-186 | with colon-free sources and set names, a rule key determines source, set name and id |
| RegistryFacts.RuleKeysCanCollide | src/rules/index.ts:181-186 | without that condition, two different (set name, id) pairs share a key |
| RegistryFacts.SourceKeysDisjoint | src/rules/index.ts:63-82 | keys written for different directories never coincide |
| RegistryFacts.StoreRulesUntouched | src/rules/index.ts:184-187 | a key no rule of the set maps to keeps its entry |
| RegistryFacts.StoreRulesLastWins | src/rules/index.ts:184-187 | a rule's key holds that rule when no later rule of the set has the same id |
| RegistryFacts.StoreRulesFrom | src/rules/index.ts:184-187 | every stored rule was there before under that key or is a rule of the set under its key |
| RegistryFacts.RegisterLastWriteWins | src/rules/index.ts:180-190 | registering stores the set under its key, leaves other set keys and untouched rule keys alone, and stores each last-of-its-id rule |
| RegistryFacts.GetRulesMembers | src/rules/index.ts:192-216 | a rule is returned iff it is registered and satisfies every supplied predicate |
| RegistryFacts.EmptyFilterKeepsAll | src/rules/index.ts:198-215 | no filter, or one with every field absent, returns all values in insertion order |
| RegistryFacts.TallyKeys | src/rules/index.ts:231-234 | a counting record has one key per distinct value other than `__proto__`, in first-appearance order |
| RegistryFacts.TallyCounts | src/rules/index.ts:231-234 | `__proto__` has no entry; an ordinary key holds the number of its occurrences; an inherited method's name holds its source text followed by one `1` per occurrence; a value that never occurs has no entry |
| RegistryFacts.TallySum | src/rules/index.ts:231-234 | the numeric counts add up to the number of values that are ordinary keys |
| RegistryFacts.MetadataCounts | src/rules/index.ts:226-243 | total equals the map size; enabled is at most total; each counting record sums to the number of ordinary keys counted, hence to total when every key is ordinary; an ordinary category or severity holds the count of rules with it; sources are the set keys |
| RegistryFacts.ProtoCategoryUncounted | src/rules/index.ts:231-233 | a rule whose category is `__proto__` is counted in the total but leaves the category record empty |
| RegistryFacts.ConstructorCategoryConcatenated | src/rules/index.ts:231-233 | a category `constructor` yields `function Object() { [native code] }1` |
| RegistryFacts.AbsentCategoryCountedAsUndefined | src/rules/index.ts:231-233 | a rule without a category is counted under `undefined` |
| RegistryFacts.WithEnabledOnlyThatRule | src/rules/index.ts:245-261 | enabling or disabling changes only the named rule's flag; an unknown key changes nothing |
| RegistryFacts.WithEnabledIdempotent | src/rules/index.ts:245-261 | enabling (or disabling) twice equals once |
| RegistryFacts.ToggleRestores | src/rules/index.ts:245-261 | flipping a rule's flag and flipping it back restores the registry iff the flag was present and already had that value |
| RegistryFacts.WithEnabledKeepsCounts | src/rules/index.ts:226-261 | toggling leaves total, category and severity counts unchanged |
| RegistryFacts.EnabledRuleIsListed | src/rules/index.ts:245-252 | after enabling a stored rule it is among `getRules({ enabled: true })` |
| RegistryFacts.LoadIgnoresNonJson | src/rules/index.ts:87-88 | dropping every non-`.json` file changes nothing |
| RegistryFacts.LoadedSetsFromFiles | src/rules/index.ts:84-104 | every rule set after a directory load was there before or comes from an admitted file |
| RegistryFacts.LoadedUnlessOverwritten | src/rules/index.ts:84-104 | an admitted file's set is stored unless a later admitted file has the same name |
| RegistryFacts.LoadedRulesFromFiles | src/rules/index.ts:84-104 | every rule after a directory load was there before or belongs to an admitted file |
| RegistryFacts.LoadedFromRulesFrom | src/rules/index.ts:63-82 | the same for a directory that may be absent |
| RegistryFacts.ReloadedRulesComeFromFiles | src/rules/index.ts:263-267 | after a reload every rule belongs to an admitted file of one of the three directories |
| RegistryFacts.StrictValidImpliesLoadAccepted | src/rules/index.ts:106-156 | a rule set the strict validator accepts is accepted by the loader |
| RegistryFacts.LenientRuleSetLoads | src/rules/index.ts:106-156 | the loader accepts a set without a description whose rule has no confidence and an unknown category and severity |
| RegistryFacts.LenientRuleSetInvalid | src/rules/validator.ts:41-43 | the strict validator rejects that same set |
| RegistryFacts.LoaderIsWeaker | src/rules/index.ts:106-156 | some rule set loads although the strict validator rejects it |
| RegistryFacts.LoaderIgnoresClassification | src/rules/index.ts:127-156 | the loader's verdict does not depend on description, category or severity |
| Seqs.DedupMembers | src/pii/detector.ts:116 | `[...new Set(s)]` keeps exactly the values of s |
| Seqs.DedupKeepsFirstOccurrenceOrder | src/pii/detector.ts:116 | deduplicated labels keep the order of their first occurrence |
| Seqs.DedupOfDistinct | src/pii/detector.ts:116 | a list without repeats is unchanged |
| Seqs.FilterTwice | src/rules/index.ts:200-213 | filtering by p then q is filtering by their conjunction |
| Text.ParseIntOfNatToString | src/config/index.ts:34 | `parseInt` reads back a decimal rendering of n as n |
| Detector.PIIDetector.constructor | src/pii/detector.ts:6-8 | the detector keeps the configuration it is given |
| Detector.PIIDetector.Redact | src/pii/detector.ts:49-56 | one guarded block: when enabled and the ORIGINAL text matches, replace in the running text, record the label, add the match count |
| Detector.PIIDetector.RedactBuiltins | src/pii/detector.ts:48-101 | the six blocks run in the fixed order |
| Detector.PIIDetector.RedactCustom | src/pii/detector.ts:103-112 | the first custom pattern that does not compile throws its error; otherwise each pattern is one unconditional block with flag `g` |
| Detector.PIIDetector.Detect | src/pii/detector.ts:43-120 | `detect` returns exactly the specified result, or throws exactly the specified error |
| Detector.RunGatedAppend | src/pii/detector.ts:48-112 | running phases in two parts is running them at once |
| Detector.CompileFailurePrefix | src/pii/detector.ts:104-105 | a compile failure in a prefix of the custom patterns is the failure of the whole list |
| DetectorFacts.RunGatedLedger | src/pii/detector.ts:49-112 | labels grow by exactly the firing phases' labels and the count by their matches |
| DetectorFacts.FiredTagsMembers | src/pii/detector.ts:49-112 | a label is recorded iff some enabled phase carrying it matches the original text |
| DetectorFacts.FiredTagsInOrder | src/pii/detector.ts:49-112 | labels are recorded in phase order |
| DetectorFacts.FiredTagsEmpty | src/pii/detector.ts:114-115 | nothing is recorded iff no phase fires |
| DetectorFacts.RunGatedQuiet | src/pii/detector.ts:49-112 | when no phase fires the state is unchanged |
| DetectorFacts.OnlyOneFires | src/pii/detector.ts:49-112 | when only phase k can fire, a run is that single step |
| DetectorFacts.CompileFailureNone | src/pii/detector.ts:104-105 | no failure iff every custom pattern compiles with `g` |
| DetectorFacts.CompileFailureFirst | src/pii/detector.ts:104-105 | a failure is the error of the first pattern that does not compile |
| DetectorFacts.DetectFailsIff | src/pii/detector.ts:103-112 | `detect` throws iff some custom pattern does not compile, with the first one's error |
| DetectorFacts.ReportOf | src/pii/detector.ts:114-119 | the labels are the fired labels without repeats, a label is present iff a phase carrying it fires, `hasPII` iff some phase fires, the count is the total of the firing phases' matches |
| DetectorFacts.DetectReport | src/pii/detector.ts:43-120 | a successful `detect` reports what its phases fired, as above |
| DetectorFacts.DetectClean | src/pii/detector.test.ts:74-78 | text that no switched-on pattern matches comes back unchanged, with no labels and count 0 |
| DetectorFacts.RunGatedIgnoresRewrites | src/pii/detector.ts:49-112 | labels and count do not depend on how text is rewritten |
| DetectorFacts.DetectIgnoresRewrites | src/pii/detector.ts:43-120 | engines agreeing on compiling and matching give the same verdict, labels and count |
| DetectorFacts.CompileFailureSameEngine | src/pii/detector.ts:104-105 | the compile failure depends only on compiling |
| DetectorFacts.BuiltinPhaseAt | src/pii/detector.ts:48-101 | the i-th phase is the category in place i of SSN, credit card, email, phone, IP, API key |
| DetectorFacts.BuiltinsOff | src/pii/detector.ts:48-101 | with every switch off no built-in phase runs |
| DetectorFacts.BuiltinOrderComplete | src/pii/detector.ts:48-101 | every category has a place in the order |
| DetectorFacts.BuiltinLabelInjective | src/pii/detector.ts:10-41 | the six labels differ |
| DetectorFacts.BuiltinLabelIff | src/pii/detector.ts:48-101 | unless a custom pattern reuses it, a category's label is reported iff the category is on and matches the original text |
| DetectorFacts.BuiltinTagUnique | src/pii/detector.ts:48-101 | such a label is carried by its category's phase only |
| DetectorFacts.UniqueTagReported | src/pii/detector.ts:114-119 | a label carried by one phase only is reported iff that phase fires |
| DetectorFacts.MatchTotalOfSix | src/pii/detector.ts:48-101 | the six blocks' count is the sum of their contributions |
| DetectorFacts.MultipleCategories | src/pii/detector.test.ts:63-70 | one SSN, email and phone match each give success, the three labels and count 3 |
| DetectorFacts.CustomPatternOnly | src/pii/detector.test.ts:82-102 | with every category off, one matching custom pattern gives exactly its label, its replacement text and its count |
| EnhancedDetector.EnhancedPIIDetector.constructor | src/pii/enhanced-detector.ts:9-12 | keeps a supplied registry; otherwise creates a fresh empty one over the default rule directory |
| EnhancedDetector.EnhancedPIIDetector.LoadRules | src/pii/enhanced-detector.ts:14-16 | delegates to the registry's load |
| EnhancedDetector.EnhancedPIIDetector.Detect | src/pii/enhanced-detector.ts:51-150 | built-in and custom phases as in `PIIDetector`, then every enabled registry rule in insertion order on the running text |
| EnhancedDetector.EnhancedPIIDetector.ApplyRule | src/pii/enhanced-detector.ts:126-138 | a rule that does not compile leaves the state; otherwise a match on the running text replaces, records the rule name, adds the count |
| EnhancedDetector.EnhancedPIIDetector.GetRuleManager | src/pii/enhanced-detector.ts:171-173 | returns the very registry object the detector uses |
| EnhancedFacts.EmptyRegistryIsStatic | src/pii/enhanced-detector.ts:122-142 | with no enabled rule the enhanced engine is the static one |
| EnhancedFacts.RegistryNeverFails | src/pii/enhanced-detector.ts:122-142 | registry rules never make `detect` fail; it fails exactly as the static engine does |
| EnhancedFacts.RunRegistryAppend | src/pii/enhanced-detector.ts:125-139 | applying rules in two parts is applying them at once |
| EnhancedFacts.RunRegistryLedger | src/pii/enhanced-detector.ts:125-139 | the rule pass appends exactly the labels of rules that match the running text and adds their matches |
| EnhancedFacts.EnhancedReport | src/pii/enhanced-detector.ts:144-149 | labels are the static then registry labels without repeats, `hasPII` iff something fired, the count is the sum of both |
| EnhancedFacts.ThreePhaseReport | src/pii/enhanced-detector.ts:51-150 | the same for any static phase list |
| EnhancedFacts.SkipsUncompilableRule | src/pii/enhanced-detector.ts:126-138 | a rule that does not compile is skipped and the following rules still run |
| EnhancedFacts.RunRegistryExtends | src/pii/enhanced-detector.ts:122-142 | the rule pass keeps earlier labels as a prefix, never lowers the count, and each new label names a compiling rule |
| EnhancedFacts.EnhancedExtendsStatic | src/pii/enhanced-detector.ts:51-150 | the enhanced result keeps every static label and count, and adds only names of compiling rules |
| EnhancedFacts.EnabledRulesMembers | src/pii/enhanced-detector.ts:124 | the rules applied are exactly the registered rules that are enabled |
| EnhancedFacts.RegistryRuleOnly | src/rules/enhanced-detector.test.ts:69-78 | text only the test rule matches gives that rule's label, its replacement text and count 1 |
| EnhancedFacts.BuiltinThenRegistryRule | src/rules/enhanced-detector.test.ts:80-90 | an email match then a rule match on the redacted text give labels Email and Test Pattern and count 2 |
| EnhancedFacts.EmailOnlyStatic | src/rules/enhanced-detector.test.ts:80-90 | in that example only the email phase fires |
| EnhancedFacts.RegistryAfter | src/rules/enhanced-detector.test.ts:80-90 | the rule then applies to the email-redacted text |
| ConfigModel.ConfigManager.constructor | src/config/index.ts:8-10 | the stored configuration is what `loadConfig` yields |
| ConfigModel.ConfigManager.LoadConfig | src/config/index.ts:12-27 | an existing custom file is merged over the defaults; otherwise the environment overrides are |
| ConfigModel.ConfigManager.LoadFromEnv | src/config/index.ts:29-60 | the incremental build equals the section-by-section description of the environment overrides |
| ConfigModel.ConfigManager.GetConfig | src/config/index.ts:85-87 | returns the stored configuration |
| ConfigModel.ConfigManager.UpdateConfig | src/config/index.ts:89-91 | the stored configuration becomes the updates merged over the old one |
| ConfigFacts.MergeNothing | src/config/index.ts:62-83 | merging `{}` gives back the base |
| ConfigFacts.MergePIIFields | src/config/index.ts:66-69 | within `pii` a present field wins and an absent one keeps the base value |
| ConfigFacts.MergeLoggingAndRateLimitFields | src/config/index.ts:70-81 | the same within `logging` and `rateLimit` |
| ConfigFacts.MergeAbsentSections | src/config/index.ts:66-81 | a section the override leaves out comes through unchanged |
| ConfigFacts.MergeProvidersShallow | src/config/index.ts:74-77 | a present provider entry replaces the base entry whole |
| ConfigFacts.ProviderBaseURLDropped | src/config/index.ts:74-77 | so an `openai` override without `baseURL` drops the base `baseURL` |
| ConfigFacts.MergePortAndRulesWhole | src/config/index.ts:63-65 | `port` and `rules` are taken from the override whole when present |
| ConfigFacts.RulesNotMergedFieldByField | src/config/index.ts:63-65 | so a `rules` override naming only `enabled` loses the base `rulesDir` |
| ConfigFacts.MergeIdempotent | src/config/index.ts:62-83 | merging the same override twice is merging it once |
| ConfigFacts.MergeTwice | src/config/index.ts:62-83 | two merges in a row equal one merge of the layered overrides |
| ConfigFacts.MergePIITwice | src/config/index.ts:66-69 | the same for the `pii` section |
| ConfigFacts.MergeLoggingTwice | src/config/index.ts:70-73 | the same for the `logging` section |
| ConfigFacts.MergeProvidersTwice | src/config/index.ts:74-77 | the same for the `providers` section |
| ConfigFacts.MergeRateLimitTwice | src/config/index.ts:78-81 | the same for the `rateLimit` section |
| ConfigFacts.UpdatesCollapse | src/config/index.ts:89-91 | any run of `updateConfig` calls equals one merge of all updates layered in order |
| ConfigFacts.EnvFlagIff | src/config/index.ts:38-51 | a flag is set to b iff its variable is non-empty and b says whether it is exactly "true" |
| ConfigFacts.EnvPIISection | src/config/index.ts:37-51 | a `pii` section exists iff a flag variable is set; it never names the other `pii` fields; no providers, rate limit or rules come from the environment |
| ConfigFacts.EnvKeepsOtherSettings | src/config/index.ts:29-60 | the environment never changes the other detection settings, logging flags, providers, rate limit or rules |
| ConfigFacts.EnvPortRoundTrip | src/config/index.ts:33-35 | a port written in decimal is read back as that port |
| ConfigFacts.EnvPortNaN | src/config/index.ts:33-35 | a port value without leading digits becomes `NaN` and still replaces the default |
| ConfigFacts.EmptyEnvKeepsDefaults | src/config/index.ts:23-26 | with no file and none of the variables set, the defaults come through unchanged |
| ConfigFacts.CustomFileIgnoresEnv | src/config/index.ts:18-21 | an existing custom file wins and the environment is not consulted |
| ConfigFacts.NoCustomFileUsesEnv | src/config/index.ts:18-26 | without a path, with an empty path or a missing file, the environment overrides are merged |

## Left out

- **The regex engine.** Compiling, matching and replacing follow ECMAScript RegExp and are an
  oracle. Nothing is proved about the languages of the six built-in patterns.
- **Non-global flags.** A rule may carry flags without `g`. Then `match` returns capture groups
  and `replace` rewrites only the first match. The oracle's `matchCount` and `replaceAll` stand
  for whatever the engine does with the given flags.
- **`scanObject` in both detectors.** The `JSON.stringify`/`JSON.parse` round trip is a foreign
  call.
- **File-system reads and JSON parsing:**
  - `existsSync`, `readdirSync` and `readFileSync`;
  - the default configuration file;
  - `validateRuleSetFile` and `testRuleSetFile`.

  Parsed contents are parameters. JSON `null` and values of the wrong JSON type are not modelled.
- **Logging calls.** They are left out, and so is the rethrow in `loadRules`, whose directory
  reads are not modelled.
- **Async/await.** `loadRules`, `detect` and `testRuleSet` are sequential. Concurrent reloads are
  not modelled.
- **Shared rule objects.** `enableRule` and `disableRule` mutate the `Rule` object that is shared
  with the arrays stored in `ruleSets`. The model updates the entry in `rules` only, so it does not
  capture that aliasing.
- **Key order of counting records.** JavaScript lists integer-like keys of a plain object first.
  The model keeps insertion order for the category and severity records.
- **Numbers:**
  - Confidence is a real, so `NaN` confidences are not modelled.
  - Ports and rate limits are unbounded integers, so precision above 2^53 and fractional numbers
    from JSON are not modelled.
- **Explicit `undefined` in a partial configuration.** A spread copies such a property. The model
  treats every property that is not present as absent.
- **The unused `schemaPath`** of `RuleValidator`.
- **`testRuleSet`'s catch branch.** `testRule` catches every error itself, so the outer catch
  never runs and `errors` stays empty.
