/** What merging, environment loading and repeated updates promise about the configuration. */
module ConfigFacts {
  import opened Wrappers
  import opened Text
  import opened Types
  import opened ConfigModel

  /** One spread property: present in the override means the override's value, absent means the base's. */
  predicate Overrides<T(==)>(over: Option<T>, merged: T, base: T) {
    (over.Some? ==> merged == over.value) && (over.None? ==> merged == base)
  }

  /** Merging `{}` gives back the base configuration. */
  lemma MergeNothing(base: Config)
    ensures MergeConfigs(base, NoOverrides) == base
  {
  }

  /** Inside `pii`, each property of the override section wins and each absent one keeps the base's. */
  lemma MergePIIFields(base: Config, over: PartialConfig)
    requires over.pii.Some?
    ensures var r := MergeConfigs(base, over).pii; var o := over.pii.value;
      && Overrides(o.detectSSN, r.detectSSN, base.pii.detectSSN)
      && Overrides(o.detectCreditCards, r.detectCreditCards, base.pii.detectCreditCards)
      && Overrides(o.detectEmails, r.detectEmails, base.pii.detectEmails)
      && Overrides(o.detectPhoneNumbers, r.detectPhoneNumbers, base.pii.detectPhoneNumbers)
      && Overrides(o.detectIPAddresses, r.detectIPAddresses, base.pii.detectIPAddresses)
      && Overrides(o.detectAPIKeys, r.detectAPIKeys, base.pii.detectAPIKeys)
      && Overrides(o.customPatterns, r.customPatterns, base.pii.customPatterns)
  {
  }

  /** The same for `logging` and `rateLimit`. */
  lemma MergeLoggingAndRateLimitFields(base: Config, over: PartialConfig)
    ensures over.logging.Some? ==>
      var r := MergeConfigs(base, over).logging; var o := over.logging.value;
      && Overrides(o.level, r.level, base.logging.level)
      && Overrides(o.logPII, r.logPII, base.logging.logPII)
      && Overrides(o.logRequests, r.logRequests, base.logging.logRequests)
    ensures over.rateLimit.Some? ==>
      var r := MergeConfigs(base, over).rateLimit; var o := over.rateLimit.value;
      && Overrides(o.windowMs, r.windowMs, base.rateLimit.windowMs)
      && Overrides(o.max, r.max, base.rateLimit.max)
  {
  }

  /** A section the override leaves out comes through unchanged. */
  lemma MergeAbsentSections(base: Config, over: PartialConfig)
    ensures over.pii.None? ==> MergeConfigs(base, over).pii == base.pii
    ensures over.logging.None? ==> MergeConfigs(base, over).logging == base.logging
    ensures over.providers.None? ==> MergeConfigs(base, over).providers == base.providers
    ensures over.rateLimit.None? ==> MergeConfigs(base, over).rateLimit == base.rateLimit
  {
  }

  /** `providers` is merged one entry deep: a present entry replaces the base's entry whole. */
  lemma MergeProvidersShallow(base: Config, over: PartialConfig)
    requires over.providers.Some?
    ensures Overrides(over.providers.value.openai, MergeConfigs(base, over).providers.openai, base.providers.openai)
    ensures Overrides(over.providers.value.anthropic, MergeConfigs(base, over).providers.anthropic, base.providers.anthropic)
  {
  }

  /** So an `openai` override without `baseURL` drops the base's `baseURL`. */
  lemma ProviderBaseURLDropped(base: Config)
    requires base.providers.openai.baseURL == Some("https://proxy.example")
    ensures var over := NoOverrides.(providers := Some(PartialProviders(Some(ProviderSettings(true, None)), None)));
      MergeConfigs(base, over).providers.openai.baseURL == None &&
      MergeConfigs(base, over).providers.anthropic == base.providers.anthropic
  {
  }

  /** `port` and `rules` are taken from the override whole when present. */
  lemma MergePortAndRulesWhole(base: Config, over: PartialConfig)
    ensures Overrides(over.port, MergeConfigs(base, over).port, base.port)
    ensures Overrides(over.rules, MergeConfigs(base, over).rules, base.rules)
  {
  }

  /** So a `rules` override naming only `enabled` loses the base's `rulesDir`. */
  lemma RulesNotMergedFieldByField(base: Config)
    requires base.rules.rulesDir == Some("./rules")
    ensures var over := NoOverrides.(rules := Some(RulesConfig(Some(false), None, None, None, None, None)));
      MergeConfigs(base, over).rules.enabled == Some(false) &&
      MergeConfigs(base, over).rules.rulesDir == None
  {
  }

  /** Applying the same override twice is applying it once. */
  lemma MergeIdempotent(base: Config, over: PartialConfig)
    ensures MergeConfigs(MergeConfigs(base, over), over) == MergeConfigs(base, over)
  {
  }

  /** `later` laid over `earlier`, property by property at the depth `mergeConfigs` merges. */
  function Or<T>(later: Option<T>, earlier: Option<T>): (r: Option<T>) {
    if later.Some? then later else earlier
  }

  function LayerPII(earlier: Option<PartialPII>, later: Option<PartialPII>): (r: Option<PartialPII>) {
    if earlier.None? then later
    else if later.None? then earlier
    else
      var a, b := earlier.value, later.value;
      Some(PartialPII(Or(b.detectSSN, a.detectSSN), Or(b.detectCreditCards, a.detectCreditCards),
        Or(b.detectEmails, a.detectEmails), Or(b.detectPhoneNumbers, a.detectPhoneNumbers),
        Or(b.detectIPAddresses, a.detectIPAddresses), Or(b.detectAPIKeys, a.detectAPIKeys),
        Or(b.customPatterns, a.customPatterns)))
  }

  function LayerLogging(earlier: Option<PartialLogging>, later: Option<PartialLogging>): (r: Option<PartialLogging>) {
    if earlier.None? then later
    else if later.None? then earlier
    else
      var a, b := earlier.value, later.value;
      Some(PartialLogging(Or(b.level, a.level), Or(b.logPII, a.logPII), Or(b.logRequests, a.logRequests)))
  }

  function LayerProviders(earlier: Option<PartialProviders>, later: Option<PartialProviders>): (r: Option<PartialProviders>) {
    if earlier.None? then later
    else if later.None? then earlier
    else Some(PartialProviders(Or(later.value.openai, earlier.value.openai), Or(later.value.anthropic, earlier.value.anthropic)))
  }

  function LayerRateLimit(earlier: Option<PartialRateLimit>, later: Option<PartialRateLimit>): (r: Option<PartialRateLimit>) {
    if earlier.None? then later
    else if later.None? then earlier
    else Some(PartialRateLimit(Or(later.value.windowMs, earlier.value.windowMs), Or(later.value.max, earlier.value.max)))
  }

  /** The single override that does what `earlier` followed by `later` does. */
  function Layer(earlier: PartialConfig, later: PartialConfig): (r: PartialConfig) {
    PartialConfig(
      Or(later.port, earlier.port),
      LayerPII(earlier.pii, later.pii),
      LayerLogging(earlier.logging, later.logging),
      LayerProviders(earlier.providers, later.providers),
      LayerRateLimit(earlier.rateLimit, later.rateLimit),
      Or(later.rules, earlier.rules))
  }

  /** Two merges in a row are one merge of the layered overrides. */
  lemma MergeTwice(base: Config, earlier: PartialConfig, later: PartialConfig)
    ensures MergeConfigs(MergeConfigs(base, earlier), later) == MergeConfigs(base, Layer(earlier, later))
  {
    MergePIITwice(base.pii, earlier.pii, later.pii);
    MergeLoggingTwice(base.logging, earlier.logging, later.logging);
    MergeProvidersTwice(base.providers, earlier.providers, later.providers);
    MergeRateLimitTwice(base.rateLimit, earlier.rateLimit, later.rateLimit);
  }

  lemma MergePIITwice(base: PIIDetectionConfig, earlier: Option<PartialPII>, later: Option<PartialPII>)
    ensures MergePII(MergePII(base, earlier), later) == MergePII(base, LayerPII(earlier, later))
  {
  }

  lemma MergeLoggingTwice(base: LoggingConfig, earlier: Option<PartialLogging>, later: Option<PartialLogging>)
    ensures MergeLogging(MergeLogging(base, earlier), later) == MergeLogging(base, LayerLogging(earlier, later))
  {
  }

  lemma MergeProvidersTwice(base: ProviderConfig, earlier: Option<PartialProviders>, later: Option<PartialProviders>)
    ensures MergeProviders(MergeProviders(base, earlier), later) == MergeProviders(base, LayerProviders(earlier, later))
  {
  }

  lemma MergeRateLimitTwice(base: RateLimitConfig, earlier: Option<PartialRateLimit>, later: Option<PartialRateLimit>)
    ensures MergeRateLimit(MergeRateLimit(base, earlier), later) == MergeRateLimit(base, LayerRateLimit(earlier, later))
  {
  }

  /** The configuration after `updateConfig` has been called with each of `updates` in turn. */
  function ApplyUpdates(config: Config, updates: seq<PartialConfig>): (r: Config) {
    if updates == [] then config
    else MergeConfigs(ApplyUpdates(config, updates[..|updates| - 1]), updates[|updates| - 1])
  }

  function LayerAll(updates: seq<PartialConfig>): (r: PartialConfig) {
    if updates == [] then NoOverrides
    else Layer(LayerAll(updates[..|updates| - 1]), updates[|updates| - 1])
  }

  /** Any run of updates is one merge of all of them, the later ones winning property by property. */
  lemma {:induction false} UpdatesCollapse(config: Config, updates: seq<PartialConfig>)
    ensures ApplyUpdates(config, updates) == MergeConfigs(config, LayerAll(updates))
  {
    if updates == [] {
      MergeNothing(config);
    } else {
      var init := updates[..|updates| - 1];
      UpdatesCollapse(config, init);
      MergeTwice(config, LayerAll(init), updates[|updates| - 1]);
    }
  }

  /** The three flag variables `loadFromEnv` reads, each with the `pii` property it sets. */
  predicate IsFlagVar(name: string) {
    name == SsnVar || name == EmailsVar || name == CreditCardsVar
  }

  function FlagOf(p: PartialPII, name: string): (r: Option<bool>)
    requires IsFlagVar(name)
  {
    if name == SsnVar then p.detectSSN
    else if name == EmailsVar then p.detectEmails
    else p.detectCreditCards
  }

  /** A flag is set to `b` exactly when its variable is non-empty and `b` says whether it reads "true". */
  lemma EnvFlagIff(env: map<string, string>, name: string, b: bool)
    requires IsFlagVar(name)
    ensures (EnvOverrides(env).pii.Some? && FlagOf(EnvOverrides(env).pii.value, name) == Some(b))
      <==> (IsSet(env, name) && b == (env[name] == "true"))
  {
  }

  /** A `pii` section appears only when a flag variable is set, and it never names the other properties. */
  lemma EnvPIISection(env: map<string, string>)
    ensures EnvOverrides(env).pii.Some? <==> IsSet(env, SsnVar) || IsSet(env, EmailsVar) || IsSet(env, CreditCardsVar)
    ensures EnvOverrides(env).pii.Some? ==>
      var p := EnvOverrides(env).pii.value;
      p.detectPhoneNumbers.None? && p.detectIPAddresses.None? && p.detectAPIKeys.None? && p.customPatterns.None?
    ensures EnvOverrides(env).providers.None? && EnvOverrides(env).rateLimit.None? && EnvOverrides(env).rules.None?
  {
  }

  /** So the environment never changes the other detection settings, providers, rate limit or rules. */
  lemma EnvKeepsOtherSettings(defaults: Config, env: map<string, string>)
    ensures var c := MergeConfigs(defaults, EnvOverrides(env));
      && c.pii.detectPhoneNumbers == defaults.pii.detectPhoneNumbers
      && c.pii.detectIPAddresses == defaults.pii.detectIPAddresses
      && c.pii.detectAPIKeys == defaults.pii.detectAPIKeys
      && c.pii.customPatterns == defaults.pii.customPatterns
      && c.logging.logPII == defaults.logging.logPII
      && c.logging.logRequests == defaults.logging.logRequests
      && c.providers == defaults.providers
      && c.rateLimit == defaults.rateLimit
      && c.rules == defaults.rules
  {
  }

  /** A port written in decimal is read back as that port. */
  lemma EnvPortRoundTrip(env: map<string, string>, n: nat)
    requires PortVar in env && env[PortVar] == NatToString(n)
    ensures EnvOverrides(env).port == Some(Num(n))
  {
    ParseIntOfNatToString(n);
  }

  /** A port value with no leading digits becomes `NaN`, and it still replaces the default port. */
  lemma EnvPortNaN(defaults: Config, env: map<string, string>)
    requires PortVar in env && env[PortVar] == "auto"
    ensures MergeConfigs(defaults, EnvOverrides(env)).port == NaN
  {
    assert TrimStart("auto") == "auto";
    assert DigitPrefixLength("auto") == 0;
  }

  /** With none of the variables set, the defaults come through unchanged. */
  lemma EmptyEnvKeepsDefaults(defaults: Config, env: map<string, string>)
    requires !IsSet(env, PortVar) && !IsSet(env, SsnVar) && !IsSet(env, EmailsVar)
    requires !IsSet(env, CreditCardsVar) && !IsSet(env, LogLevelVar)
    ensures LoadConfigSpec(defaults, None, map[], env) == defaults
  {
    assert EnvOverrides(env) == NoOverrides;
    MergeNothing(defaults);
  }

  /** An existing custom file wins and the environment is not consulted at all. */
  lemma CustomFileIgnoresEnv(defaults: Config, configPath: Option<string>, files: map<string, PartialConfig>,
                             env1: map<string, string>, env2: map<string, string>)
    requires UsesCustomFile(configPath, files)
    ensures LoadConfigSpec(defaults, configPath, files, env1) == MergeConfigs(defaults, files[configPath.value])
    ensures LoadConfigSpec(defaults, configPath, files, env1) == LoadConfigSpec(defaults, configPath, files, env2)
  {
  }

  /** Without one (no path, an empty path, or a missing file) the environment overrides are merged. */
  lemma NoCustomFileUsesEnv(defaults: Config, configPath: Option<string>, files: map<string, PartialConfig>,
                            env: map<string, string>)
    requires configPath.None? || configPath.value == "" || configPath.value !in files
    ensures LoadConfigSpec(defaults, configPath, files, env) == MergeConfigs(defaults, EnvOverrides(env))
  {
  }
}
