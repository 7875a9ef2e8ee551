/** The configuration and result records shared by the detectors and the configuration manager. */
module Types {
  import opened Wrappers

  /** An inline pattern from the configuration: a named regex source and its literal replacement. */
  datatype CustomPattern = CustomPattern(name: string, pattern: string, replacement: string)

  /** Which built-in categories run, plus the inline custom patterns. */
  datatype PIIDetectionConfig = PIIDetectionConfig(
    detectSSN: bool,
    detectCreditCards: bool,
    detectEmails: bool,
    detectPhoneNumbers: bool,
    detectIPAddresses: bool,
    detectAPIKeys: bool,
    customPatterns: seq<CustomPattern>)

  /** What one detection call reports. */
  datatype PIIDetectionResult = PIIDetectionResult(
    hasPII: bool,
    detectedTypes: seq<string>,
    cleanedText: string,
    redactedCount: nat)

  /** The rule-directory settings. Every field is optional: an override replaces the whole section. */
  datatype RulesConfig = RulesConfig(
    enabled: Option<bool>,
    rulesDir: Option<string>,
    autoReload: Option<bool>,
    minConfidence: Option<real>,
    enabledCategories: Option<seq<string>>,
    disabledRules: Option<seq<string>>)
}
