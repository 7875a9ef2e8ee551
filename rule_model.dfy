/**
 * Rules, test cases and rule sets as they arrive from a parsed rule-set file.
 *
 * A string property the code only tests for truthiness is a `string`, with "" standing for
 * both `undefined` and the empty string. A property whose `undefined` the code tells apart
 * from its other falsy values is an `Option`: `replacement` (written into the text),
 * `category` and `severity` (used as property names), `enabled` (compared with `===`).
 */
module RuleModel {
  import opened Wrappers
  import opened RegexOracle

  datatype TestCase = TestCase(input: Option<string>, expected: Option<string>, shouldMatch: Option<bool>)

  datatype Rule = Rule(
    id: string,
    name: string,
    description: string,
    pattern: string,
    flags: string,
    replacement: Option<string>,
    confidence: Option<real>,
    category: Option<string>,
    severity: Option<string>,
    enabled: Option<bool>,
    testCases: Option<seq<TestCase>>)

  datatype RuleSet = RuleSet(
    name: string,
    version: string,
    description: string,
    author: string,
    tags: Option<seq<string>>,
    rules: Option<seq<Rule>>)

  const Categories: set<string> := {"personal", "financial", "medical", "technical", "custom"}
  const Severities: set<string> := {"low", "medium", "high", "critical"}

  /** A JavaScript string is truthy when it is defined and not empty. */
  predicate Truthy(s: Option<string>) {
    s.Some? && s.value != ""
  }

  /**
   * The text `s.replace(regex, rule.replacement)` inserts: an absent replacement is converted
   * to the string "undefined".
   */
  function ReplacementText(r: Rule): (res: string) {
    if r.replacement.Some? then r.replacement.value else "undefined"
  }

  /** The regex a rule is compiled to everywhere: `new RegExp(rule.pattern, rule.flags || 'g')`. */
  function RuleRegex(r: Rule): (res: Regex) {
    Regex(r.pattern, FlagsOrGlobal(r.flags))
  }

  predicate RuleCompiles(e: Engine, r: Rule) {
    e.compiles(r.pattern, FlagsOrGlobal(r.flags))
  }
}
