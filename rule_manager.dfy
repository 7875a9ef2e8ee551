/**
 * The rule registry (`RuleManager`): rule sets read from the `core`, `community` and `vendor`
 * rule directories, checked by a load-time validator that stops at the first defect, and kept
 * in two insertion-ordered maps. Every rule is stored under `source:setName:ruleId`, every rule
 * set under `source:setName`.
 *
 * The directories are not read here: each directory arrives as the list of its file names,
 * in directory order, with the rule set each file parses to (`None` for a file that cannot be
 * read or parsed).
 */
module RuleRegistry {
  import opened Wrappers
  import opened Seqs
  import opened Text
  import opened RegexOracle
  import opened RuleModel
  import opened JsMap
  import Validator

  // ---------------------------------------------------------------------------------------
  // What the load-time validator accepts.
  // ---------------------------------------------------------------------------------------

  /**
   * The loader's `validateRule`: the four required strings, a pattern that compiles, a
   * confidence that is not numerically outside [0, 1] (an absent one passes), and every
   * declared test case passing.
   */
  predicate LoadAcceptsRule(e: Engine, r: Rule) {
    && r.id != "" && r.name != "" && r.pattern != "" && Truthy(r.replacement)
    && RuleCompiles(e, r)
    && (r.confidence.None? || 0.0 <= r.confidence.value <= 1.0)
    && (forall j :: 0 <= j < |Validator.CasesOf(r)| ==> Validator.TestRulePasses(e, r, Validator.CasesOf(r)[j]))
  }

  /** The loader's `validateRuleSet`: a name, a version, a `rules` array, and every rule accepted. */
  predicate LoadAccepts(e: Engine, rs: RuleSet) {
    && rs.name != "" && rs.version != "" && rs.rules.Some?
    && (forall i :: 0 <= i < |rs.rules.value| ==> LoadAcceptsRule(e, rs.rules.value[i]))
  }

  // ---------------------------------------------------------------------------------------
  // The registry's state and how a rule set is stored.
  // ---------------------------------------------------------------------------------------

  function RuleSetKey(source: string, name: string): (r: string) {
    source + ":" + name
  }

  function RuleKey(setKey: string, id: string): (r: string) {
    setKey + ":" + id
  }

  datatype Registry = Registry(rules: OrderedMap<Rule>, ruleSets: OrderedMap<RuleSet>) {
    ghost predicate Valid() {
      rules.Valid() && ruleSets.Valid()
    }
  }

  function EmptyRegistry(): (reg: Registry)
    ensures reg.Valid() && reg.rules.Size() == 0 && reg.ruleSets.Size() == 0
  {
    Registry(Empty(), Empty())
  }

  /** Every rule of `rules`, in array order, written under its key below `setKey`. */
  function StoreRules(m: OrderedMap<Rule>, setKey: string, rules: seq<Rule>): (r: OrderedMap<Rule>)
    requires m.Valid()
    ensures r.Valid()
  {
    if rules == [] then m
    else
      var last := rules[|rules| - 1];
      StoreRules(m, setKey, rules[..|rules| - 1]).Set(RuleKey(setKey, last.id), last)
  }

  /** `registerRuleSet`: the set under `source:name`, then its rules. */
  function Register(reg: Registry, rs: RuleSet, source: string): (r: Registry)
    requires reg.Valid() && rs.rules.Some?
    ensures r.Valid()
  {
    var setKey := RuleSetKey(source, rs.name);
    Registry(StoreRules(reg.rules, setKey, rs.rules.value), reg.ruleSets.Set(setKey, rs))
  }

  // ---------------------------------------------------------------------------------------
  // Loading from the rule directories.
  // ---------------------------------------------------------------------------------------

  /** One directory entry: its file name and what parsing its contents gives. */
  datatype RuleFile = RuleFile(name: string, content: Option<RuleSet>)

  /** The three rule directories; `None` for a directory that does not exist. */
  datatype RuleDirectories = RuleDirectories(
    core: Option<seq<RuleFile>>,
    community: Option<seq<RuleFile>>,
    vendor: Option<seq<RuleFile>>)

  predicate IsJsonFile(f: RuleFile) {
    EndsWith(f.name, ".json")
  }

  function IsJson(): (r: RuleFile -> bool) {
    (f: RuleFile) => IsJsonFile(f)
  }

  /** A file whose rule set is registered: a `.json` file that parses to a rule set the loader accepts. */
  predicate Admitted(e: Engine, f: RuleFile) {
    IsJsonFile(f) && f.content.Some? && LoadAccepts(e, f.content.value)
  }

  function LoadFile(e: Engine, reg: Registry, f: RuleFile, source: string): (r: Registry)
    requires reg.Valid()
    ensures r.Valid()
  {
    if Admitted(e, f) then Register(reg, f.content.value, source) else reg
  }

  /** `loadRulesFromDirectory`: the files in directory order, each skipped or registered. */
  function LoadDirectory(e: Engine, reg: Registry, files: seq<RuleFile>, source: string): (r: Registry)
    requires reg.Valid()
    ensures r.Valid()
  {
    if files == [] then reg
    else LoadFile(e, LoadDirectory(e, reg, files[..|files| - 1], source), files[|files| - 1], source)
  }

  function LoadFrom(e: Engine, reg: Registry, dir: Option<seq<RuleFile>>, source: string): (r: Registry)
    requires reg.Valid()
    ensures r.Valid()
  {
    if dir.None? then reg else LoadDirectory(e, reg, dir.value, source)
  }

  /** `loadRules`: core, then community, then vendor. */
  function LoadAll(e: Engine, reg: Registry, dirs: RuleDirectories): (r: Registry)
    requires reg.Valid()
    ensures r.Valid()
  {
    LoadFrom(e, LoadFrom(e, LoadFrom(e, reg, dirs.core, "core"), dirs.community, "community"), dirs.vendor, "vendor")
  }

  // ---------------------------------------------------------------------------------------
  // Queries.
  // ---------------------------------------------------------------------------------------

  /**
   * The `getRules` filter; an absent or empty field does not filter. A rule passes a present
   * field only when its own field is present and equal (`===`), so a rule without `enabled`
   * passes neither `enabled: true` nor `enabled: false`.
   */
  datatype RuleFilter = RuleFilter(
    enabled: Option<bool>,
    category: string,
    severity: string,
    minConfidence: Option<real>)

  /** Whether a rule passes every predicate the filter supplies. */
  predicate Admits(filter: Option<RuleFilter>, r: Rule) {
    if filter.None? then true
    else
      var f := filter.value;
      && (f.enabled.None? || r.enabled == Some(f.enabled.value))
      && (f.category == "" || r.category == Some(f.category))
      && (f.severity == "" || r.severity == Some(f.severity))
      && (f.minConfidence.None? || (r.confidence.Some? && r.confidence.value >= f.minConfidence.value))
  }

  function AdmitsFn(filter: Option<RuleFilter>): (r: Rule -> bool) {
    (r: Rule) => Admits(filter, r)
  }

  /** The four `getRules` predicates; an absent or empty filter field admits every rule. */
  function EnabledStage(f: RuleFilter): (r: Rule -> bool) {
    (r: Rule) => f.enabled.None? || r.enabled == Some(f.enabled.value)
  }

  function CategoryStage(f: RuleFilter): (r: Rule -> bool) {
    (r: Rule) => f.category == "" || r.category == Some(f.category)
  }

  function SeverityStage(f: RuleFilter): (r: Rule -> bool) {
    (r: Rule) => f.severity == "" || r.severity == Some(f.severity)
  }

  function ConfidenceStage(f: RuleFilter): (r: Rule -> bool) {
    (r: Rule) => f.minConfidence.None? || (r.confidence.Some? && r.confidence.value >= f.minConfidence.value)
  }

  function EnabledAndCategory(f: RuleFilter): (r: Rule -> bool) {
    (r: Rule) => EnabledStage(f)(r) && CategoryStage(f)(r)
  }

  function EnabledCategoryAndSeverity(f: RuleFilter): (r: Rule -> bool) {
    (r: Rule) => EnabledAndCategory(f)(r) && SeverityStage(f)(r)
  }

  /** Applying the four predicates one after the other is filtering once by `Admits`. */
  lemma FilterChain(s: seq<Rule>, f: RuleFilter)
    ensures Filter(Filter(Filter(Filter(s, EnabledStage(f)), CategoryStage(f)), SeverityStage(f)), ConfidenceStage(f))
         == Filter(s, AdmitsFn(Some(f)))
  {
    var ec := EnabledAndCategory(f);
    FilterConjunction(s, EnabledStage(f), CategoryStage(f), ec);
    var ecs := EnabledCategoryAndSeverity(f);
    FilterConjunction(s, ec, SeverityStage(f), ecs);
    AdmitsIsConjunction(f);
    FilterConjunction(s, ecs, ConfidenceStage(f), AdmitsFn(Some(f)));
  }

  lemma AdmitsIsConjunction(f: RuleFilter)
    ensures forall r :: AdmitsFn(Some(f))(r) == (EnabledCategoryAndSeverity(f)(r) && ConfidenceStage(f)(r))
  {
    forall r: Rule
      ensures AdmitsFn(Some(f))(r) == (EnabledCategoryAndSeverity(f)(r) && ConfidenceStage(f)(r))
    {
      assert EnabledCategoryAndSeverity(f)(r) == (EnabledAndCategory(f)(r) && SeverityStage(f)(r));
      assert EnabledAndCategory(f)(r) == (EnabledStage(f)(r) && CategoryStage(f)(r));
    }
  }

  lemma FilterConjunction(s: seq<Rule>, p: Rule -> bool, q: Rule -> bool, pq: Rule -> bool)
    requires forall r :: pq(r) == (p(r) && q(r))
    ensures Filter(Filter(s, p), q) == Filter(s, pq)
  {
    FilterTwice(s, p, q, pq);
  }

  /** `r => r.enabled`: only a rule whose flag is present and true is counted. */
  function IsEnabled(): (r: Rule -> bool) {
    (r: Rule) => r.enabled == Some(true)
  }

  /** How many times `c` occurs in `s`. */
  function Occurrences(s: seq<string>, c: string): (r: nat) {
    if s == [] then 0 else Occurrences(s[..|s| - 1], c) + (if s[|s| - 1] == c then 1 else 0)
  }

  // The counting records of `getMetadata` are plain objects `{}`, not `Map`s: a property name
  // inherited from `Object.prototype` is read through the prototype on its first bump.

  /** The property name a rule field is used as: an absent value becomes the key "undefined". */
  function PropertyKey(v: Option<string>): (r: string) {
    if v.Some? then v.value else "undefined"
  }

  /** The accessor inherited from `Object.prototype`; assigning a string to it is ignored. */
  const ProtoKey := "__proto__"

  /** The methods a plain object inherits from `Object.prototype`, under their property names. */
  const InheritedMethods: set<string> := {
    "constructor", "hasOwnProperty", "isPrototypeOf", "propertyIsEnumerable", "toString",
    "toLocaleString", "valueOf", "__defineGetter__", "__defineSetter__", "__lookupGetter__",
    "__lookupSetter__"}

  /** A property name the record counts with numbers. */
  predicate Ordinary(k: string) {
    k != ProtoKey && k !in InheritedMethods
  }

  /** `String(Object)`: the inherited `constructor` is the `Object` function. */
  const ObjectSource := "function Object() { [native code] }"

  /** What an inherited method converts to under `+`: the source text of a native function. */
  function NativeSource(k: string): (r: string) {
    if k == "constructor" then ObjectSource else "function " + k + "() { [native code] }"
  }

  /**
   * A property of a counting record: a count, or the string that `+ 1` made of an inherited
   * method, written as that method's source text followed by `ones` digits "1".
   */
  datatype Tallied = Count(n: nat) | Concatenated(source: string, ones: nat) {
    /** The string a `Concatenated` value is. */
    function Text(): (r: string)
      requires Concatenated?
    {
      source + Ones(ones)
    }
  }

  /** `n` digits "1". */
  function Ones(n: nat): (r: string)
    ensures |r| == n
  {
    if n == 0 then "" else Ones(n - 1) + "1"
  }

  /** `value + 1` for a value the record already holds: a number grows, a string gets "1" appended. */
  function PlusOne(v: Tallied): (w: Tallied)
    ensures v.Concatenated? ==> w.Concatenated? && w.Text() == v.Text() + "1"
  {
    match v
    case Count(n) => Count(n + 1)
    case Concatenated(source, ones) => Concatenated(source, ones + 1)
  }

  /** `record[k] = (record[k] || 0) + 1` on a plain object. */
  function Bump(t: OrderedMap<Tallied>, k: string): (t': OrderedMap<Tallied>)
    requires t.Valid()
    ensures t'.Valid()
  {
    if k == ProtoKey then t
    else if k in t.entries then t.Set(k, PlusOne(t.entries[k]))
    else if k in InheritedMethods then t.Set(k, Concatenated(NativeSource(k), 1))
    else t.Set(k, Count(1))
  }

  /** The counting record `Bump` builds over `s`, starting from `{}`. */
  function Tally(s: seq<string>): (t: OrderedMap<Tallied>)
    ensures t.Valid()
  {
    if s == [] then Empty() else Bump(Tally(s[..|s| - 1]), s[|s| - 1])
  }

  /** One more element counted. */
  lemma TallyStep(s: seq<string>, i: nat)
    requires i < |s|
    ensures Tally(s[..i + 1]) == Bump(Tally(s[..i]), s[i])
  {
    assert s[..i + 1][..i] == s[..i];
  }

  function CategoryList(rules: seq<Rule>): (s: seq<string>)
    ensures |s| == |rules| && forall i :: 0 <= i < |rules| ==> s[i] == PropertyKey(rules[i].category)
  {
    seq(|rules|, i requires 0 <= i < |rules| => PropertyKey(rules[i].category))
  }

  function SeverityList(rules: seq<Rule>): (s: seq<string>)
    ensures |s| == |rules| && forall i :: 0 <= i < |rules| ==> s[i] == PropertyKey(rules[i].severity)
  {
    seq(|rules|, i requires 0 <= i < |rules| => PropertyKey(rules[i].severity))
  }

  datatype RuleMetadata = RuleMetadata(
    totalRules: nat,
    enabledRules: nat,
    categories: OrderedMap<Tallied>,
    severities: OrderedMap<Tallied>,
    sources: seq<string>)

  /** What `getMetadata` reports about a registry. */
  function Metadata(reg: Registry): (r: RuleMetadata)
    requires reg.Valid()
  {
    var values := reg.rules.Values();
    RuleMetadata(
      |values|,
      |Filter(values, IsEnabled())|,
      Tally(CategoryList(values)),
      Tally(SeverityList(values)),
      reg.ruleSets.keys)
  }

  // ---------------------------------------------------------------------------------------
  // Enabling and disabling.
  // ---------------------------------------------------------------------------------------

  /** The registry after `rule.enabled = enabled` on the rule stored under `k`, if there is one. */
  function WithEnabled(m: OrderedMap<Rule>, k: string, enabled: bool): (r: OrderedMap<Rule>)
    requires m.Valid()
    ensures r.Valid() && r.keys == m.keys
  {
    if k in m.entries then OrderedMap(m.keys, m.entries[k := m.entries[k].(enabled := Some(enabled))]) else m
  }

  // ---------------------------------------------------------------------------------------
  // The manager.
  // ---------------------------------------------------------------------------------------

  class RuleManager {
    var rules: OrderedMap<Rule>
    var ruleSets: OrderedMap<RuleSet>
    const rulesDir: string

    ghost predicate Valid()
      reads this
    {
      rules.Valid() && ruleSets.Valid()
    }

    function State(): (r: Registry)
      reads this
    {
      Registry(rules, ruleSets)
    }

    constructor(rulesDir: string)
      ensures Valid() && State() == EmptyRegistry() && this.rulesDir == rulesDir
    {
      rules := Empty();
      ruleSets := Empty();
      this.rulesDir := rulesDir;
    }

    /** `loadRules`: each directory that exists, in the order core, community, vendor. */
    method LoadRules(e: Engine, dirs: RuleDirectories)
      requires Valid()
      modifies this
      ensures Valid() && State() == LoadAll(e, old(State()), dirs)
    {
      if dirs.core.Some? {
        LoadRulesFromDirectory(e, dirs.core.value, "core");
      }
      if dirs.community.Some? {
        LoadRulesFromDirectory(e, dirs.community.value, "community");
      }
      if dirs.vendor.Some? {
        LoadRulesFromDirectory(e, dirs.vendor.value, "vendor");
      }
    }

    /** `loadRulesFromDirectory`: every `.json` file that parses and passes the loader is registered. */
    method LoadRulesFromDirectory(e: Engine, files: seq<RuleFile>, source: string)
      requires Valid()
      modifies this
      ensures Valid() && State() == LoadDirectory(e, old(State()), files, source)
    {
      for i := 0 to |files|
        invariant Valid() && State() == LoadDirectory(e, old(State()), files[..i], source)
      {
        assert files[..i + 1][..i] == files[..i];
        var file := files[i];
        if EndsWith(file.name, ".json") && file.content.Some? {
          var ruleSet := file.content.value;
          var ok := ValidateRuleSet(e, ruleSet);
          if ok {
            RegisterRuleSet(ruleSet, source);
          }
        }
      }
      assert files[..|files|] == files;
    }

    /** The loader's `validateRuleSet`: header fields, then each rule until one is rejected. */
    method ValidateRuleSet(e: Engine, ruleSet: RuleSet) returns (ok: bool)
      ensures ok == LoadAccepts(e, ruleSet)
    {
      if ruleSet.name == "" || ruleSet.version == "" || ruleSet.rules.None? {
        return false;
      }
      var rules := ruleSet.rules.value;
      for i := 0 to |rules|
        invariant forall j :: 0 <= j < i ==> LoadAcceptsRule(e, rules[j])
      {
        var accepted := ValidateRule(e, rules[i]);
        if !accepted {
          return false;
        }
      }
      return true;
    }

    /** The loader's `validateRule`; a pattern that does not compile throws and is caught as a rejection. */
    method ValidateRule(e: Engine, rule: Rule) returns (ok: bool)
      ensures ok == LoadAcceptsRule(e, rule)
    {
      if rule.id == "" || rule.name == "" || rule.pattern == "" || !Truthy(rule.replacement) {
        return false;
      }
      if !e.compiles(rule.pattern, FlagsOrGlobal(rule.flags)) {
        return false;
      }
      if rule.confidence.Some? && (rule.confidence.value < 0.0 || rule.confidence.value > 1.0) {
        return false;
      }
      if rule.testCases.Some? {
        var tcs := rule.testCases.value;
        for j := 0 to |tcs|
          invariant forall k :: 0 <= k < j ==> Validator.TestRulePasses(e, rule, tcs[k])
        {
          var passes := ValidateTestCase(e, rule, tcs[j]);
          if !passes {
            assert Validator.CasesOf(rule)[j] == tcs[j];
            return false;
          }
        }
      }
      return true;
    }

    /**
     * The loader's `validateTestCase`: it applies the same oracle as the test runner's
     * `testRule`, so it is proved equal to it.
     */
    method ValidateTestCase(e: Engine, rule: Rule, testCase: TestCase) returns (ok: bool)
      ensures ok == Validator.TestRulePasses(e, rule, testCase)
    {
      if !e.compiles(rule.pattern, FlagsOrGlobal(rule.flags)) || testCase.input.None? {
        return false;
      }
      var regex := RuleRegex(rule);
      var input := testCase.input.value;
      var hasMatch := e.matchCount(regex, input) > 0;
      if testCase.shouldMatch != Some(hasMatch) {
        return false;
      }
      if testCase.shouldMatch.value {
        var result := e.replaceAll(regex, input, ReplacementText(rule));
        return testCase.expected == Some(result);
      }
      return true;
    }

    /** `registerRuleSet`: the set under `source:name`, then each rule under `source:name:id`. */
    method RegisterRuleSet(ruleSet: RuleSet, source: string)
      requires Valid() && ruleSet.rules.Some?
      modifies this
      ensures Valid() && State() == Register(old(State()), ruleSet, source)
    {
      var ruleSetKey := RuleSetKey(source, ruleSet.name);
      ruleSets := ruleSets.Set(ruleSetKey, ruleSet);
      var setRules := ruleSet.rules.value;
      for i := 0 to |setRules|
        invariant Valid() && ruleSets == old(ruleSets).Set(ruleSetKey, ruleSet)
        invariant rules == StoreRules(old(rules), ruleSetKey, setRules[..i])
      {
        assert setRules[..i + 1][..i] == setRules[..i];
        var rule := setRules[i];
        rules := rules.Set(RuleKey(ruleSetKey, rule.id), rule);
      }
      assert setRules[..|setRules|] == setRules;
    }

    /** `getRules`: the registry's values, narrowed by each predicate the filter supplies in turn. */
    method GetRules(filter: Option<RuleFilter>) returns (result: seq<Rule>)
      requires Valid()
      ensures result == Filter(rules.Values(), AdmitsFn(filter))
    {
      result := rules.Values();
      if filter.None? {
        FilterAll(result, AdmitsFn(filter));
        return;
      }
      var f := filter.value;
      ghost var all := result;
      if f.enabled.Some? {
        result := Filter(result, EnabledStage(f));
      } else {
        FilterAll(result, EnabledStage(f));
      }
      ghost var afterEnabled := result;
      if f.category != "" {
        result := Filter(result, CategoryStage(f));
      } else {
        FilterAll(result, CategoryStage(f));
      }
      ghost var afterCategory := result;
      if f.severity != "" {
        result := Filter(result, SeverityStage(f));
      } else {
        FilterAll(result, SeverityStage(f));
      }
      ghost var afterSeverity := result;
      if f.minConfidence.Some? {
        result := Filter(result, ConfidenceStage(f));
      } else {
        FilterAll(result, ConfidenceStage(f));
      }
      FilterChain(all, f);
    }

    /** `getRule`: the rule stored under a full key `source:setName:ruleId`. */
    function GetRule(id: string): (r: Option<Rule>)
      reads this
      ensures r.Some? <==> id in rules.entries
      ensures r.Some? ==> r.value == rules.entries[id]
    {
      rules.Get(id)
    }

    /** `getRuleSet`: the rule set stored under `source:setName`. */
    function GetRuleSet(name: string): (r: Option<RuleSet>)
      reads this
      ensures r.Some? <==> name in ruleSets.entries
      ensures r.Some? ==> r.value == ruleSets.entries[name]
    {
      ruleSets.Get(name)
    }

    /** `getMetadata`: one pass over the rules counting categories and severities. */
    method GetMetadata() returns (md: RuleMetadata)
      requires Valid()
      ensures md == Metadata(State())
    {
      var values := rules.Values();
      var categories: OrderedMap<Tallied> := Empty();
      var severities: OrderedMap<Tallied> := Empty();
      ghost var categoryList := CategoryList(values);
      ghost var severityList := SeverityList(values);
      for i := 0 to |values|
        invariant categories == Tally(categoryList[..i])
        invariant severities == Tally(severityList[..i])
      {
        var rule := values[i];
        assert PropertyKey(rule.category) == categoryList[i] && PropertyKey(rule.severity) == severityList[i];
        TallyStep(categoryList, i);
        TallyStep(severityList, i);
        categories := Bump(categories, PropertyKey(rule.category));
        severities := Bump(severities, PropertyKey(rule.severity));
      }
      assert categoryList[..|values|] == categoryList;
      assert severityList[..|values|] == severityList;
      md := RuleMetadata(|values|, |Filter(values, IsEnabled())|, categories, severities, ruleSets.keys);
    }

    /** `enableRule`: sets `enabled` on the rule under `id`; reports whether there was one. */
    method EnableRule(id: string) returns (found: bool)
      requires Valid()
      modifies this
      ensures Valid()
      ensures found <==> id in old(rules.entries)
      ensures rules == WithEnabled(old(rules), id, true) && ruleSets == old(ruleSets)
    {
      var rule := rules.Get(id);
      if rule.Some? {
        rules := rules.Set(id, rule.value.(enabled := Some(true)));
        return true;
      }
      return false;
    }

    /** `disableRule`: clears `enabled` on the rule under `id`; reports whether there was one. */
    method DisableRule(id: string) returns (found: bool)
      requires Valid()
      modifies this
      ensures Valid()
      ensures found <==> id in old(rules.entries)
      ensures rules == WithEnabled(old(rules), id, false) && ruleSets == old(ruleSets)
    {
      var rule := rules.Get(id);
      if rule.Some? {
        rules := rules.Set(id, rule.value.(enabled := Some(false)));
        return true;
      }
      return false;
    }

    /** `reloadRules`: both maps emptied, then a fresh load. */
    method ReloadRules(e: Engine, dirs: RuleDirectories)
      requires Valid()
      modifies this
      ensures Valid() && State() == LoadAll(e, EmptyRegistry(), dirs)
    {
      rules := Empty();
      ruleSets := Empty();
      LoadRules(e, dirs);
    }
  }
}
