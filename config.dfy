/**
 * The layered configuration (`ConfigManager`): the defaults, then either a custom file or the
 * environment variables, then runtime updates. Sections `pii`, `logging` and `rateLimit` are
 * merged field by field, `providers` one entry deep, and `port` and `rules` are replaced whole.
 */
module ConfigModel {
  import opened Wrappers
  import opened Text
  import opened Types

  /** A JavaScript number as it can reach `port`: an integer, or `NaN` from a failed `parseInt`. */
  datatype JsNumber = Num(n: int) | NaN

  /** `level` is one of 'error', 'warn', 'info', 'debug' by type only; the environment cast is unchecked. */
  datatype LoggingConfig = LoggingConfig(level: string, logPII: bool, logRequests: bool)

  datatype ProviderSettings = ProviderSettings(enabled: bool, baseURL: Option<string>)

  datatype ProviderConfig = ProviderConfig(openai: ProviderSettings, anthropic: ProviderSettings)

  datatype RateLimitConfig = RateLimitConfig(windowMs: int, max: int)

  datatype Config = Config(
    port: JsNumber,
    pii: PIIDetectionConfig,
    logging: LoggingConfig,
    providers: ProviderConfig,
    rateLimit: RateLimitConfig,
    rules: RulesConfig)

  /** `Partial<PIIDetectionConfig>`: `None` is an absent property. */
  datatype PartialPII = PartialPII(
    detectSSN: Option<bool>,
    detectCreditCards: Option<bool>,
    detectEmails: Option<bool>,
    detectPhoneNumbers: Option<bool>,
    detectIPAddresses: Option<bool>,
    detectAPIKeys: Option<bool>,
    customPatterns: Option<seq<CustomPattern>>)

  datatype PartialLogging = PartialLogging(level: Option<string>, logPII: Option<bool>, logRequests: Option<bool>)

  /** `Partial<ProviderConfig>`: each entry, when present, is a complete `ProviderSettings`. */
  datatype PartialProviders = PartialProviders(openai: Option<ProviderSettings>, anthropic: Option<ProviderSettings>)

  datatype PartialRateLimit = PartialRateLimit(windowMs: Option<int>, max: Option<int>)

  /** `PartialConfig`; its `rules` is a `Partial<RulesConfig>`, which `RulesConfig` already is here. */
  datatype PartialConfig = PartialConfig(
    port: Option<JsNumber>,
    pii: Option<PartialPII>,
    logging: Option<PartialLogging>,
    providers: Option<PartialProviders>,
    rateLimit: Option<PartialRateLimit>,
    rules: Option<RulesConfig>)

  const NoPII: PartialPII := PartialPII(None, None, None, None, None, None, None)

  /** The empty override `{}`. */
  const NoOverrides: PartialConfig := PartialConfig(None, None, None, None, None, None)

  /** One property of an object spread: the override's value when present, else the base's. */
  function Pick<T>(over: Option<T>, base: T): (r: T) {
    if over.Some? then over.value else base
  }

  /** `{ ...base.pii, ...override.pii }`; spreading an absent section adds nothing. */
  function MergePII(base: PIIDetectionConfig, over: Option<PartialPII>): (r: PIIDetectionConfig) {
    var o := if over.Some? then over.value else NoPII;
    PIIDetectionConfig(
      Pick(o.detectSSN, base.detectSSN),
      Pick(o.detectCreditCards, base.detectCreditCards),
      Pick(o.detectEmails, base.detectEmails),
      Pick(o.detectPhoneNumbers, base.detectPhoneNumbers),
      Pick(o.detectIPAddresses, base.detectIPAddresses),
      Pick(o.detectAPIKeys, base.detectAPIKeys),
      Pick(o.customPatterns, base.customPatterns))
  }

  function MergeLogging(base: LoggingConfig, over: Option<PartialLogging>): (r: LoggingConfig) {
    var o := if over.Some? then over.value else PartialLogging(None, None, None);
    LoggingConfig(Pick(o.level, base.level), Pick(o.logPII, base.logPII), Pick(o.logRequests, base.logRequests))
  }

  function MergeProviders(base: ProviderConfig, over: Option<PartialProviders>): (r: ProviderConfig) {
    var o := if over.Some? then over.value else PartialProviders(None, None);
    ProviderConfig(Pick(o.openai, base.openai), Pick(o.anthropic, base.anthropic))
  }

  function MergeRateLimit(base: RateLimitConfig, over: Option<PartialRateLimit>): (r: RateLimitConfig) {
    var o := if over.Some? then over.value else PartialRateLimit(None, None);
    RateLimitConfig(Pick(o.windowMs, base.windowMs), Pick(o.max, base.max))
  }

  /**
   * `mergeConfigs`: the top-level spread takes `port` and `rules` from the override whole; the four
   * explicit sections after it are merged one level deep.
   */
  function MergeConfigs(base: Config, over: PartialConfig): (r: Config) {
    Config(
      Pick(over.port, base.port),
      MergePII(base.pii, over.pii),
      MergeLogging(base.logging, over.logging),
      MergeProviders(base.providers, over.providers),
      MergeRateLimit(base.rateLimit, over.rateLimit),
      Pick(over.rules, base.rules))
  }

  const PortVar := "LLM_FIREWALL_PORT"
  const SsnVar := "LLM_FIREWALL_DETECT_SSN"
  const EmailsVar := "LLM_FIREWALL_DETECT_EMAILS"
  const CreditCardsVar := "LLM_FIREWALL_DETECT_CREDIT_CARDS"
  const LogLevelVar := "LLM_FIREWALL_LOG_LEVEL"

  /** `if (process.env.X)`: the variable is defined and not the empty string. */
  predicate IsSet(env: map<string, string>, name: string) {
    name in env && env[name] != ""
  }

  /** `parseInt(value, 10)` as a number, `NaN` when no digits lead the value. */
  function ParsePort(value: string): (r: JsNumber) {
    var parsed := ParseInt(value);
    if parsed.Some? then Num(parsed.value) else NaN
  }

  /** The value a flag variable gives: `value === 'true'` when set, nothing when unset or empty. */
  function EnvFlag(env: map<string, string>, name: string): (r: Option<bool>) {
    if IsSet(env, name) then Some(env[name] == "true") else None
  }

  /** The overrides the environment describes, stated section by section. */
  function EnvOverrides(env: map<string, string>): (r: PartialConfig) {
    var port := if IsSet(env, PortVar) then Some(ParsePort(env[PortVar])) else None;
    var pii :=
      if IsSet(env, SsnVar) || IsSet(env, EmailsVar) || IsSet(env, CreditCardsVar) then
        Some(NoPII.(detectSSN := EnvFlag(env, SsnVar), detectEmails := EnvFlag(env, EmailsVar),
                    detectCreditCards := EnvFlag(env, CreditCardsVar)))
      else None;
    var logging := if IsSet(env, LogLevelVar) then Some(PartialLogging(Some(env[LogLevelVar]), None, None)) else None;
    PartialConfig(port, pii, logging, None, None, None)
  }

  /** A custom file is used when its path is given, non-empty, and names an existing file. */
  predicate UsesCustomFile(configPath: Option<string>, files: map<string, PartialConfig>) {
    configPath.Some? && configPath.value != "" && configPath.value in files
  }

  /** `loadConfig`: the custom file over the defaults if there is one, else the environment over them. */
  function LoadConfigSpec(defaults: Config, configPath: Option<string>, files: map<string, PartialConfig>,
                          env: map<string, string>): Config
  {
    if UsesCustomFile(configPath, files) then MergeConfigs(defaults, files[configPath.value])
    else MergeConfigs(defaults, EnvOverrides(env))
  }

  class ConfigManager {
    var config: Config

    /**
     * Loads the configuration once. The default file's parsed contents, the parsed contents of the
     * files that exist, and the process environment are parameters.
     */
    constructor(defaults: Config, configPath: Option<string>, files: map<string, PartialConfig>,
                env: map<string, string>)
      ensures config == LoadConfigSpec(defaults, configPath, files, env)
    {
      var loaded := LoadConfig(defaults, configPath, files, env);
      config := loaded;
    }

    /** `loadConfig`: environment variables are read only when no custom file is used. */
    static method LoadConfig(defaults: Config, configPath: Option<string>, files: map<string, PartialConfig>,
                             env: map<string, string>) returns (c: Config)
      ensures c == LoadConfigSpec(defaults, configPath, files, env)
    {
      if configPath.Some? && configPath.value != "" && configPath.value in files {
        var customConfig := files[configPath.value];
        return MergeConfigs(defaults, customConfig);
      }
      var envConfig := LoadFromEnv(env);
      c := MergeConfigs(defaults, envConfig);
    }

    /** `loadFromEnv`: starts from `{}` and fills in one property per variable that is set. */
    static method LoadFromEnv(env: map<string, string>) returns (envConfig: PartialConfig)
      ensures envConfig == EnvOverrides(env)
    {
      envConfig := NoOverrides;

      if PortVar in env && env[PortVar] != "" {
        envConfig := envConfig.(port := Some(ParsePort(env[PortVar])));
      }

      if SsnVar in env && env[SsnVar] != "" {
        if envConfig.pii.None? {
          envConfig := envConfig.(pii := Some(NoPII));
        }
        envConfig := envConfig.(pii := Some(envConfig.pii.value.(detectSSN := Some(env[SsnVar] == "true"))));
      }

      if EmailsVar in env && env[EmailsVar] != "" {
        if envConfig.pii.None? {
          envConfig := envConfig.(pii := Some(NoPII));
        }
        envConfig := envConfig.(pii := Some(envConfig.pii.value.(detectEmails := Some(env[EmailsVar] == "true"))));
      }

      if CreditCardsVar in env && env[CreditCardsVar] != "" {
        if envConfig.pii.None? {
          envConfig := envConfig.(pii := Some(NoPII));
        }
        envConfig := envConfig.(pii := Some(envConfig.pii.value.(detectCreditCards := Some(env[CreditCardsVar] == "true"))));
      }

      if LogLevelVar in env && env[LogLevelVar] != "" {
        if envConfig.logging.None? {
          envConfig := envConfig.(logging := Some(PartialLogging(None, None, None)));
        }
        envConfig := envConfig.(logging := Some(envConfig.logging.value.(level := Some(env[LogLevelVar]))));
      }
    }

    /** `getConfig`: the stored configuration itself. */
    function GetConfig(): (c: Config)
      reads this
      ensures c == config
    {
      config
    }

    /** `updateConfig`: merges the updates over the stored configuration. */
    method UpdateConfig(updates: PartialConfig)
      modifies this
      ensures config == MergeConfigs(old(config), updates)
    {
      config := MergeConfigs(config, updates);
    }
  }
}
