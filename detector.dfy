/**
 * The static redaction pipeline (`PIIDetector.detect`): six built-in categories in a fixed
 * order, then the configuration's custom patterns in list order. Each phase that is switched
 * on asks whether its pattern matches the ORIGINAL text; if it does, it records its label,
 * adds the number of matches, and rewrites the RUNNING redacted text.
 */
module Detector {
  import opened Wrappers
  import opened Seqs
  import opened RegexOracle
  import opened Types

  // ---------------------------------------------------------------------------------------
  // The built-in categories.
  // ---------------------------------------------------------------------------------------

  datatype Builtin = SSN | CreditCard | Email | PhoneNumber | IPAddress | APIKey

  const SsnRegex: Regex := Regex(@"\b(?:\d{3}[-.\s]?\d{2}[-.\s]?\d{4}|\d{9})\b", "g")
  const CreditCardRegex: Regex := Regex(@"\b(?:\d{4}[-.\s]?\d{4}[-.\s]?\d{4}[-.\s]?\d{4}|\d{13,19})\b", "g")
  const EmailRegex: Regex := Regex(@"\b[A-Za-z0-9._%+-]+@[A-Za-z0-9.-]+\.[A-Z|a-z]{2,}\b", "g")
  const PhoneNumberRegex: Regex := Regex(@"\b(?:\+?1[-.\s]?)?(?:\(?[0-9]{3}\)?[-.\s]?)?[0-9]{3}[-.\s]?[0-9]{4}\b", "g")
  const IPAddressRegex: Regex := Regex(@"\b(?:(?:25[0-5]|2[0-4][0-9]|[01]?[0-9][0-9]?)\.){3}(?:25[0-5]|2[0-4][0-9]|[01]?[0-9][0-9]?)\b", "g")
  const APIKeyRegex: Regex := Regex(@"\b(?:sk-[a-zA-Z0-9]{32,}|pk_[a-zA-Z0-9]{24,}|[a-zA-Z0-9]{32,})\b", "g")

  /** The category's regex literal, with its `g` flag. */
  function BuiltinRegex(b: Builtin): (r: Regex) {
    match b
    case SSN => SsnRegex
    case CreditCard => CreditCardRegex
    case Email => EmailRegex
    case PhoneNumber => PhoneNumberRegex
    case IPAddress => IPAddressRegex
    case APIKey => APIKeyRegex
  }

  /** The label the category records in `detectedTypes`. */
  function BuiltinLabel(b: Builtin): (r: string) {
    match b
    case SSN => "SSN"
    case CreditCard => "Credit Card"
    case Email => "Email"
    case PhoneNumber => "Phone Number"
    case IPAddress => "IP Address"
    case APIKey => "API Key"
  }

  /** The token each match of the category is replaced with. */
  function BuiltinToken(b: Builtin): (r: string) {
    match b
    case SSN => "[REDACTED_SSN]"
    case CreditCard => "[REDACTED_CREDIT_CARD]"
    case Email => "[REDACTED_EMAIL]"
    case PhoneNumber => "[REDACTED_PHONE]"
    case IPAddress => "[REDACTED_IP]"
    case APIKey => "[REDACTED_API_KEY]"
  }

  /** The configuration switch of the category. */
  function BuiltinEnabled(config: PIIDetectionConfig, b: Builtin): (r: bool) {
    match b
    case SSN => config.detectSSN
    case CreditCard => config.detectCreditCards
    case Email => config.detectEmails
    case PhoneNumber => config.detectPhoneNumbers
    case IPAddress => config.detectIPAddresses
    case APIKey => config.detectAPIKeys
  }

  // ---------------------------------------------------------------------------------------
  // Phases and the running state.
  // ---------------------------------------------------------------------------------------

  /** One guarded block of `detect`: whether it runs, what it records, and how it rewrites. */
  datatype Phase = Phase(enabled: bool, tag: string, regex: Regex, replacement: string)

  /** The locals `detect` updates: `cleanedText`, `detectedTypes` and `redactedCount`. */
  datatype Scan = Scan(cleanedText: string, detectedTypes: seq<string>, redactedCount: nat)

  function Start(text: string): (r: Scan) {
    Scan(text, [], 0)
  }

  function BuiltinPhase(config: PIIDetectionConfig, b: Builtin): (r: Phase) {
    Phase(BuiltinEnabled(config, b), BuiltinLabel(b), BuiltinRegex(b), BuiltinToken(b))
  }

  const BuiltinOrder: seq<Builtin> := [SSN, CreditCard, Email, PhoneNumber, IPAddress, APIKey]

  function BuiltinPhases(config: PIIDetectionConfig): (ps: seq<Phase>)
    ensures |ps| == 6
  {
    seq(6, i requires 0 <= i < 6 => BuiltinPhase(config, BuiltinOrder[i]))
  }

  /** A custom pattern always runs, compiled with the `g` flag. */
  function CustomPhase(p: CustomPattern): (r: Phase) {
    Phase(true, p.name, Regex(p.pattern, "g"), p.replacement)
  }

  function CustomPhases(pats: seq<CustomPattern>): (ps: seq<Phase>)
    ensures |ps| == |pats| && forall i :: 0 <= i < |pats| ==> ps[i] == CustomPhase(pats[i])
  {
    seq(|pats|, i requires 0 <= i < |pats| => CustomPhase(pats[i]))
  }

  /** Every phase of the static pipeline, in the order `detect` runs them. */
  function StaticPhases(config: PIIDetectionConfig): (r: seq<Phase>) {
    BuiltinPhases(config) + CustomPhases(config.customPatterns)
  }

  /**
   * One phase: when it is switched on and its pattern matches the original `text`, record
   * the label, add the match count, and rewrite the running text.
   */
  function GatedStep(e: Engine, text: string, st: Scan, p: Phase): (r: Scan) {
    var matches := e.matchCount(p.regex, text);
    if p.enabled && matches > 0 then
      Scan(e.replaceAll(p.regex, st.cleanedText, p.replacement), st.detectedTypes + [p.tag], st.redactedCount + matches)
    else st
  }

  function RunGated(e: Engine, text: string, st: Scan, phases: seq<Phase>): (r: Scan) {
    if phases == [] then st
    else GatedStep(e, text, RunGated(e, text, st, phases[..|phases| - 1]), phases[|phases| - 1])
  }

  /** The error thrown by the first custom pattern that does not compile, if any. */
  function CompileFailure(e: Engine, pats: seq<CustomPattern>): (r: Option<string>) {
    if pats == [] then None
    else
      var last := pats[|pats| - 1];
      var earlier := CompileFailure(e, pats[..|pats| - 1]);
      if earlier.Some? then earlier
      else if !e.compiles(last.pattern, "g") then Some(e.compileError(last.pattern, "g"))
      else None
  }

  /** The returned record: `hasPII` from the raw label list, the labels without repeats. */
  function Finish(st: Scan): (r: PIIDetectionResult) {
    PIIDetectionResult(|st.detectedTypes| > 0, Dedup(st.detectedTypes), st.cleanedText, st.redactedCount)
  }

  /** What `detect` returns, or the error it throws. */
  function DetectSpec(e: Engine, config: PIIDetectionConfig, text: string): (r: Result<PIIDetectionResult, string>) {
    var failure := CompileFailure(e, config.customPatterns);
    if failure.Some? then Failure(failure.value)
    else Success(Finish(RunGated(e, text, Start(text), StaticPhases(config))))
  }

  /** Running a sequence of phases in two parts is running it at once. */
  lemma {:induction false} RunGatedAppend(e: Engine, text: string, st: Scan, a: seq<Phase>, b: seq<Phase>)
    ensures RunGated(e, text, st, a + b) == RunGated(e, text, RunGated(e, text, st, a), b)
  {
    if b == [] {
      assert a + b == a;
    } else {
      assert (a + b)[..|a + b| - 1] == a + b[..|b| - 1];
      RunGatedAppend(e, text, st, a, b[..|b| - 1]);
    }
  }

  lemma RunGatedStep(e: Engine, text: string, st: Scan, phases: seq<Phase>, i: nat)
    requires i < |phases|
    ensures RunGated(e, text, st, phases[..i + 1]) == GatedStep(e, text, RunGated(e, text, st, phases[..i]), phases[i])
  {
    assert phases[..i + 1][..i] == phases[..i];
  }

  lemma CompileFailureStep(e: Engine, pats: seq<CustomPattern>, i: nat)
    requires i < |pats|
    ensures CompileFailure(e, pats[..i + 1]) ==
      if CompileFailure(e, pats[..i]).Some? then CompileFailure(e, pats[..i])
      else if !e.compiles(pats[i].pattern, "g") then Some(e.compileError(pats[i].pattern, "g"))
      else None
  {
    assert pats[..i + 1][..i] == pats[..i];
  }

  // ---------------------------------------------------------------------------------------
  // The detector.
  // ---------------------------------------------------------------------------------------

  class PIIDetector {
    const config: PIIDetectionConfig

    constructor(config: PIIDetectionConfig)
      ensures this.config == config
    {
      this.config := config;
    }

    /**
     * One guarded block of `detect`: when the phase is on and its pattern matches the original
     * text, record the label, add the matches and rewrite the running text.
     */
    static method Redact(e: Engine, text: string, p: Phase, st: Scan) returns (next: Scan)
      ensures next == GatedStep(e, text, st, p)
    {
      next := st;
      if p.enabled {
        var matches := e.matchCount(p.regex, text);
        if matches > 0 {
          next := Scan(e.replaceAll(p.regex, st.cleanedText, p.replacement),
                       st.detectedTypes + [p.tag], st.redactedCount + matches);
        }
      }
    }

    /** The six built-in blocks of `detect`, in their fixed order. */
    static method RedactBuiltins(e: Engine, text: string, builtins: seq<Phase>) returns (st: Scan)
      requires |builtins| == 6
      ensures st == RunGated(e, text, Start(text), builtins)
    {
      st := Start(text);
      assert builtins[..0] == [];
      st := Redact(e, text, builtins[0], st);
      RunGatedStep(e, text, Start(text), builtins, 0);
      st := Redact(e, text, builtins[1], st);
      RunGatedStep(e, text, Start(text), builtins, 1);
      st := Redact(e, text, builtins[2], st);
      RunGatedStep(e, text, Start(text), builtins, 2);
      st := Redact(e, text, builtins[3], st);
      RunGatedStep(e, text, Start(text), builtins, 3);
      st := Redact(e, text, builtins[4], st);
      RunGatedStep(e, text, Start(text), builtins, 4);
      st := Redact(e, text, builtins[5], st);
      RunGatedStep(e, text, Start(text), builtins, 5);
      assert builtins[..6] == builtins;
    }

    /** `detect`: the built-in blocks, then one pass over the custom patterns. */
    method Detect(e: Engine, text: string) returns (result: Result<PIIDetectionResult, string>)
      ensures result == DetectSpec(e, config, text)
    {
      var st := RedactBuiltins(e, text, BuiltinPhases(config));
      var outcome := RedactCustom(e, text, config.customPatterns, st);
      if outcome.Failure? {
        return Failure(outcome.error);
      }
      RunGatedAppend(e, text, Start(text), BuiltinPhases(config), CustomPhases(config.customPatterns));
      result := Success(Finish(outcome.value));
    }

    /**
     * The custom-pattern pass of `detect`: each pattern is compiled with the `g` flag, in
     * list order; the first one that does not compile aborts the whole call with its error.
     */
    static method RedactCustom(e: Engine, text: string, patterns: seq<CustomPattern>, st0: Scan)
      returns (outcome: Result<Scan, string>)
      ensures CompileFailure(e, patterns).Some? ==> outcome == Failure(CompileFailure(e, patterns).value)
      ensures CompileFailure(e, patterns).None? ==> outcome == Success(RunGated(e, text, st0, CustomPhases(patterns)))
    {
      var st := st0;
      for i := 0 to |patterns|
        invariant CompileFailure(e, patterns[..i]).None?
        invariant st == RunGated(e, text, st0, CustomPhases(patterns[..i]))
      {
        var pattern := patterns[i];
        CompileFailureStep(e, patterns, i);
        if !e.compiles(pattern.pattern, "g") {
          CompileFailurePrefix(e, patterns, i + 1);
          return Failure(e.compileError(pattern.pattern, "g"));
        }
        RunGatedStep(e, text, st0, CustomPhases(patterns[..i + 1]), i);
        assert CustomPhases(patterns[..i + 1])[..i] == CustomPhases(patterns[..i]);
        st := Redact(e, text, CustomPhase(pattern), st);
      }
      assert patterns[..|patterns|] == patterns;
      outcome := Success(st);
    }
  }

  /** Once a prefix of the custom patterns has a compile failure, the whole list reports the same one. */
  lemma {:induction false} CompileFailurePrefix(e: Engine, pats: seq<CustomPattern>, n: nat)
    requires n <= |pats| && CompileFailure(e, pats[..n]).Some?
    ensures CompileFailure(e, pats) == CompileFailure(e, pats[..n])
  {
    if n < |pats| {
      var init := pats[..|pats| - 1];
      assert init[..n] == pats[..n];
      CompileFailurePrefix(e, init, n);
    } else {
      assert pats[..n] == pats;
    }
  }
}
