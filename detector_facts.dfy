/** What the static redaction pipeline promises, stated over the specification in `Detector`. */
module DetectorFacts {
  import opened Wrappers
  import opened Seqs
  import opened RegexOracle
  import opened Types
  import opened Detector

  /** A phase fires when it is switched on and its pattern matches the original text. */
  predicate Fires(e: Engine, text: string, p: Phase) {
    p.enabled && e.matchCount(p.regex, text) > 0
  }

  /** The labels of the phases that fire, in order. */
  function FiredTags(e: Engine, text: string, phases: seq<Phase>): (r: seq<string>) {
    if phases == [] then []
    else
      var last := phases[|phases| - 1];
      FiredTags(e, text, phases[..|phases| - 1]) + (if Fires(e, text, last) then [last.tag] else [])
  }

  /** The matches of the phases that fire, added up. */
  function MatchTotal(e: Engine, text: string, phases: seq<Phase>): (r: nat) {
    if phases == [] then 0
    else
      var last := phases[|phases| - 1];
      MatchTotal(e, text, phases[..|phases| - 1]) + (if Fires(e, text, last) then e.matchCount(last.regex, text) else 0)
  }

  /** Labels and count grow by exactly the firing phases, whatever the running text is. */
  lemma {:induction false} RunGatedLedger(e: Engine, text: string, st: Scan, phases: seq<Phase>)
    ensures RunGated(e, text, st, phases).detectedTypes == st.detectedTypes + FiredTags(e, text, phases)
    ensures RunGated(e, text, st, phases).redactedCount == st.redactedCount + MatchTotal(e, text, phases)
  {
    if phases != [] {
      RunGatedLedger(e, text, st, phases[..|phases| - 1]);
    }
  }

  /** A label is fired exactly when some phase carrying it fires. */
  lemma {:induction false} FiredTagsMembers(e: Engine, text: string, phases: seq<Phase>, l: string)
    ensures l in FiredTags(e, text, phases) <==>
      exists i :: 0 <= i < |phases| && Fires(e, text, phases[i]) && phases[i].tag == l
  {
    if phases != [] {
      var init := phases[..|phases| - 1];
      FiredTagsMembers(e, text, init, l);
      if l in FiredTags(e, text, init) {
        var i :| 0 <= i < |init| && Fires(e, text, init[i]) && init[i].tag == l;
        assert phases[i] == init[i];
      }
      if exists i :: 0 <= i < |phases| && Fires(e, text, phases[i]) && phases[i].tag == l {
        var i :| 0 <= i < |phases| && Fires(e, text, phases[i]) && phases[i].tag == l;
        if i < |init| {
          assert init[i] == phases[i];
        }
      }
    }
  }

  /** Labels are fired in phase order: an earlier firing phase's label comes first. */
  lemma {:induction false} FiredTagsInOrder(e: Engine, text: string, phases: seq<Phase>, i: nat, j: nat)
    requires i < j < |phases| && Fires(e, text, phases[i]) && Fires(e, text, phases[j])
    ensures exists p, q :: (0 <= p < q < |FiredTags(e, text, phases)| &&
      FiredTags(e, text, phases)[p] == phases[i].tag && FiredTags(e, text, phases)[q] == phases[j].tag)
  {
    var init := phases[..|phases| - 1];
    var fired := FiredTags(e, text, phases);
    if j < |phases| - 1 {
      FiredTagsInOrder(e, text, init, i, j);
      var p, q :| 0 <= p < q < |FiredTags(e, text, init)| &&
        FiredTags(e, text, init)[p] == init[i].tag && FiredTags(e, text, init)[q] == init[j].tag;
      assert fired[p] == phases[i].tag && fired[q] == phases[j].tag;
    } else {
      assert init[i] == phases[i];
      FiredTagsMembers(e, text, init, phases[i].tag);
      var p :| 0 <= p < |FiredTags(e, text, init)| && FiredTags(e, text, init)[p] == phases[i].tag;
      var q := |FiredTags(e, text, init)|;
      assert fired[p] == phases[i].tag && fired[q] == phases[j].tag;
    }
  }

  /** Some label is fired exactly when some phase fires. */
  lemma {:induction false} FiredTagsEmpty(e: Engine, text: string, phases: seq<Phase>)
    ensures FiredTags(e, text, phases) == [] <==> forall i :: 0 <= i < |phases| ==> !Fires(e, text, phases[i])
  {
    if phases != [] {
      var init := phases[..|phases| - 1];
      FiredTagsEmpty(e, text, init);
      assert forall i :: 0 <= i < |init| ==> init[i] == phases[i];
    }
  }

  /** When no phase fires, the state comes back untouched. */
  lemma {:induction false} RunGatedQuiet(e: Engine, text: string, st: Scan, phases: seq<Phase>)
    requires forall i :: 0 <= i < |phases| ==> !Fires(e, text, phases[i])
    ensures RunGated(e, text, st, phases) == st
  {
    if phases != [] {
      var init := phases[..|phases| - 1];
      assert forall i :: 0 <= i < |init| ==> init[i] == phases[i];
      RunGatedQuiet(e, text, st, init);
    }
  }

  /** When only the k-th phase can fire, a run is that one step. */
  lemma {:induction false} OnlyOneFires(e: Engine, text: string, st: Scan, phases: seq<Phase>, k: nat)
    requires k < |phases|
    requires forall i :: 0 <= i < |phases| && i != k ==> !Fires(e, text, phases[i])
    ensures RunGated(e, text, st, phases) == GatedStep(e, text, st, phases[k])
  {
    var init := phases[..|phases| - 1];
    assert forall i :: 0 <= i < |init| ==> init[i] == phases[i];
    if k == |phases| - 1 {
      RunGatedQuiet(e, text, st, init);
    } else {
      OnlyOneFires(e, text, st, init, k);
    }
  }

  /** The pipeline succeeds exactly when every custom pattern compiles. */
  lemma {:induction false} CompileFailureNone(e: Engine, pats: seq<CustomPattern>)
    ensures CompileFailure(e, pats).None? <==> forall i :: 0 <= i < |pats| ==> e.compiles(pats[i].pattern, "g")
  {
    if pats != [] {
      var init := pats[..|pats| - 1];
      CompileFailureNone(e, init);
      assert forall i :: 0 <= i < |init| ==> init[i] == pats[i];
    }
  }

  /** A compile failure is the error of the FIRST pattern that does not compile. */
  lemma {:induction false} CompileFailureFirst(e: Engine, pats: seq<CustomPattern>)
    requires CompileFailure(e, pats).Some?
    ensures exists k :: (0 <= k < |pats| && !e.compiles(pats[k].pattern, "g") &&
      (forall j :: 0 <= j < k ==> e.compiles(pats[j].pattern, "g")) &&
      CompileFailure(e, pats).value == e.compileError(pats[k].pattern, "g"))
  {
    var init := pats[..|pats| - 1];
    assert forall i :: 0 <= i < |init| ==> init[i] == pats[i];
    if CompileFailure(e, init).Some? {
      CompileFailureFirst(e, init);
      var k :| 0 <= k < |init| && !e.compiles(init[k].pattern, "g") &&
        (forall j :: 0 <= j < k ==> e.compiles(init[j].pattern, "g")) &&
        CompileFailure(e, init).value == e.compileError(init[k].pattern, "g");
      assert pats[k] == init[k];
    } else {
      CompileFailureNone(e, init);
      assert !e.compiles(pats[|pats| - 1].pattern, "g");
    }
  }

  /** `detect` throws exactly when some custom pattern does not compile, and the error is the first one's. */
  lemma DetectFailsIff(e: Engine, config: PIIDetectionConfig, text: string)
    ensures DetectSpec(e, config, text).Failure? <==>
      exists i :: 0 <= i < |config.customPatterns| && !e.compiles(config.customPatterns[i].pattern, "g")
    ensures DetectSpec(e, config, text).Failure? ==>
      exists k :: 0 <= k < |config.customPatterns| &&
        !e.compiles(config.customPatterns[k].pattern, "g") &&
        (forall j :: 0 <= j < k ==> e.compiles(config.customPatterns[j].pattern, "g")) &&
        DetectSpec(e, config, text).error == e.compileError(config.customPatterns[k].pattern, "g")
  {
    CompileFailureNone(e, config.customPatterns);
    if CompileFailure(e, config.customPatterns).Some? {
      CompileFailureFirst(e, config.customPatterns);
    }
  }

  /**
   * The record a run of phases ends in: the labels of the firing phases, each once;
   * `hasPII` says some phase fired; the count adds up their matches.
   */
  lemma ReportOf(e: Engine, text: string, phases: seq<Phase>)
    ensures var r := Finish(RunGated(e, text, Start(text), phases));
      && r.detectedTypes == Dedup(FiredTags(e, text, phases))
      && NoDuplicates(r.detectedTypes)
      && (forall l :: l in r.detectedTypes <==> exists i :: 0 <= i < |phases| && Fires(e, text, phases[i]) && phases[i].tag == l)
      && (r.hasPII <==> exists i :: 0 <= i < |phases| && Fires(e, text, phases[i]))
      && r.redactedCount == MatchTotal(e, text, phases)
  {
    var st := RunGated(e, text, Start(text), phases);
    var fired := FiredTags(e, text, phases);
    RunGatedLedger(e, text, Start(text), phases);
    assert st.detectedTypes == fired;
    FiredTagsEmpty(e, text, phases);
    forall l
      ensures l in Dedup(fired) <==> exists i :: 0 <= i < |phases| && Fires(e, text, phases[i]) && phases[i].tag == l
    {
      DedupMembers(fired, l);
      FiredTagsMembers(e, text, phases, l);
    }
  }

  /** `detect` on success reports what its phases fired, as `ReportOf` describes. */
  lemma DetectReport(e: Engine, config: PIIDetectionConfig, text: string)
    requires DetectSpec(e, config, text).Success?
    ensures var r := DetectSpec(e, config, text).value;
      var phases := StaticPhases(config);
      && r.detectedTypes == Dedup(FiredTags(e, text, phases))
      && NoDuplicates(r.detectedTypes)
      && (forall l :: l in r.detectedTypes <==> exists i :: 0 <= i < |phases| && Fires(e, text, phases[i]) && phases[i].tag == l)
      && (r.hasPII <==> exists i :: 0 <= i < |phases| && Fires(e, text, phases[i]))
      && r.redactedCount == MatchTotal(e, text, phases)
  {
    ReportOf(e, text, StaticPhases(config));
  }

  /** Text in which no switched-on pattern matches comes back as it is, with nothing reported. */
  lemma DetectClean(e: Engine, config: PIIDetectionConfig, text: string)
    requires forall i :: 0 <= i < |config.customPatterns| ==> e.compiles(config.customPatterns[i].pattern, "g")
    requires forall i :: 0 <= i < |StaticPhases(config)| ==> !Fires(e, text, StaticPhases(config)[i])
    ensures DetectSpec(e, config, text) == Success(PIIDetectionResult(false, [], text, 0))
  {
    CompileFailureNone(e, config.customPatterns);
    RunGatedQuiet(e, text, Start(text), StaticPhases(config));
  }

  /** The phases all look at the original text: labels and count do not depend on the rewriting. */
  lemma {:induction false} RunGatedIgnoresRewrites(e1: Engine, e2: Engine, text: string, st1: Scan, st2: Scan, phases: seq<Phase>)
    requires e1.matchCount == e2.matchCount
    requires st1.detectedTypes == st2.detectedTypes && st1.redactedCount == st2.redactedCount
    ensures RunGated(e1, text, st1, phases).detectedTypes == RunGated(e2, text, st2, phases).detectedTypes
    ensures RunGated(e1, text, st1, phases).redactedCount == RunGated(e2, text, st2, phases).redactedCount
  {
    if phases != [] {
      RunGatedIgnoresRewrites(e1, e2, text, st1, st2, phases[..|phases| - 1]);
    }
  }

  /** Two engines that agree on compiling and matching agree on everything `detect` reports but the text. */
  lemma DetectIgnoresRewrites(e1: Engine, e2: Engine, config: PIIDetectionConfig, text: string)
    requires e1.compiles == e2.compiles && e1.compileError == e2.compileError && e1.matchCount == e2.matchCount
    ensures DetectSpec(e1, config, text).Success? == DetectSpec(e2, config, text).Success?
    ensures DetectSpec(e1, config, text).Success? ==>
      var r1 := DetectSpec(e1, config, text).value;
      var r2 := DetectSpec(e2, config, text).value;
      r1.hasPII == r2.hasPII && r1.detectedTypes == r2.detectedTypes && r1.redactedCount == r2.redactedCount
  {
    assert CompileFailure(e1, config.customPatterns) == CompileFailure(e2, config.customPatterns) by {
      CompileFailureSameEngine(e1, e2, config.customPatterns);
    }
    RunGatedIgnoresRewrites(e1, e2, text, Start(text), Start(text), StaticPhases(config));
  }

  lemma {:induction false} CompileFailureSameEngine(e1: Engine, e2: Engine, pats: seq<CustomPattern>)
    requires e1.compiles == e2.compiles && e1.compileError == e2.compileError
    ensures CompileFailure(e1, pats) == CompileFailure(e2, pats)
  {
    if pats != [] {
      CompileFailureSameEngine(e1, e2, pats[..|pats| - 1]);
    }
  }

  // ---------------------------------------------------------------------------------------
  // The built-in categories.
  // ---------------------------------------------------------------------------------------

  /** The i-th built-in phase is the category in that place of the fixed order. */
  lemma BuiltinPhaseAt(config: PIIDetectionConfig, i: nat)
    requires i < 6
    ensures StaticPhases(config)[i] == BuiltinPhase(config, BuiltinOrder[i])
  {
  }

  /** With every category switched off, no built-in phase runs. */
  lemma BuiltinsOff(config: PIIDetectionConfig)
    requires !config.detectSSN && !config.detectCreditCards && !config.detectEmails
    requires !config.detectPhoneNumbers && !config.detectIPAddresses && !config.detectAPIKeys
    ensures forall i :: 0 <= i < 6 ==> !BuiltinPhases(config)[i].enabled
  {
    forall i | 0 <= i < 6
      ensures !BuiltinPhases(config)[i].enabled
    {
      BuiltinPhaseAt(config, i);
    }
  }

  lemma BuiltinOrderComplete(b: Builtin)
    ensures exists i :: 0 <= i < 6 && BuiltinOrder[i] == b
  {
    match b
    case SSN => assert BuiltinOrder[0] == b;
    case CreditCard => assert BuiltinOrder[1] == b;
    case Email => assert BuiltinOrder[2] == b;
    case PhoneNumber => assert BuiltinOrder[3] == b;
    case IPAddress => assert BuiltinOrder[4] == b;
    case APIKey => assert BuiltinOrder[5] == b;
  }

  /** The six labels differ from one another. */
  lemma BuiltinLabelInjective(a: Builtin, b: Builtin)
    requires BuiltinLabel(a) == BuiltinLabel(b)
    ensures a == b
  {
  }

  /**
   * A built-in label is reported exactly when its category is switched on and its pattern
   * matches, unless a custom pattern reuses the label.
   */
  lemma BuiltinLabelIff(e: Engine, config: PIIDetectionConfig, text: string, b: Builtin)
    requires DetectSpec(e, config, text).Success?
    requires forall i :: 0 <= i < |config.customPatterns| ==> config.customPatterns[i].name != BuiltinLabel(b)
    ensures BuiltinLabel(b) in DetectSpec(e, config, text).value.detectedTypes <==>
      BuiltinEnabled(config, b) && Matches(e, BuiltinRegex(b), text)
  {
    BuiltinOrderComplete(b);
    var k :| 0 <= k < 6 && BuiltinOrder[k] == b;
    BuiltinTagUnique(config, b, k);
    assert DetectSpec(e, config, text).value == Finish(RunGated(e, text, Start(text), StaticPhases(config)));
    UniqueTagReported(e, text, StaticPhases(config), k);
  }

  /** In the static phase list, a built-in label not reused by a custom pattern is carried by its category only. */
  lemma BuiltinTagUnique(config: PIIDetectionConfig, b: Builtin, k: nat)
    requires k < 6 && BuiltinOrder[k] == b
    requires forall i :: 0 <= i < |config.customPatterns| ==> config.customPatterns[i].name != BuiltinLabel(b)
    ensures StaticPhases(config)[k] == BuiltinPhase(config, b)
    ensures forall i :: 0 <= i < |StaticPhases(config)| && i != k ==> StaticPhases(config)[i].tag != BuiltinLabel(b)
  {
    var phases := StaticPhases(config);
    BuiltinPhaseAt(config, k);
    forall i | 0 <= i < |phases| && i != k
      ensures phases[i].tag != BuiltinLabel(b)
    {
      if i < 6 {
        BuiltinPhaseAt(config, i);
        if phases[i].tag == BuiltinLabel(b) {
          BuiltinLabelInjective(BuiltinOrder[i], b);
        }
      } else {
        assert phases[i] == CustomPhase(config.customPatterns[i - 6]);
      }
    }
  }

  /** A label carried by one phase only is reported exactly when that phase fires. */
  lemma UniqueTagReported(e: Engine, text: string, phases: seq<Phase>, k: nat)
    requires k < |phases|
    requires forall i :: 0 <= i < |phases| && i != k ==> phases[i].tag != phases[k].tag
    ensures phases[k].tag in Finish(RunGated(e, text, Start(text), phases)).detectedTypes <==> Fires(e, text, phases[k])
  {
    ReportOf(e, text, phases);
  }

  /** The count of six phases, phase by phase. */
  function Contribution(e: Engine, text: string, p: Phase): (r: nat) {
    if Fires(e, text, p) then e.matchCount(p.regex, text) else 0
  }

  lemma MatchTotalOfSix(e: Engine, text: string, ps: seq<Phase>)
    requires |ps| == 6
    ensures MatchTotal(e, text, ps) ==
      Contribution(e, text, ps[0]) + Contribution(e, text, ps[1]) + Contribution(e, text, ps[2]) +
      Contribution(e, text, ps[3]) + Contribution(e, text, ps[4]) + Contribution(e, text, ps[5])
  {
    assert ps[..0] == [];
    MatchTotalStep(e, text, ps, 0);
    MatchTotalStep(e, text, ps, 1);
    MatchTotalStep(e, text, ps, 2);
    MatchTotalStep(e, text, ps, 3);
    MatchTotalStep(e, text, ps, 4);
    MatchTotalStep(e, text, ps, 5);
    assert ps[..6] == ps;
  }

  lemma MatchTotalStep(e: Engine, text: string, ps: seq<Phase>, i: nat)
    requires i < |ps|
    ensures MatchTotal(e, text, ps[..i + 1]) == MatchTotal(e, text, ps[..i]) + Contribution(e, text, ps[i])
  {
    assert ps[..i + 1][..i] == ps[..i];
  }

  // ---------------------------------------------------------------------------------------
  // The scenarios the repository's own examples exercise.
  // ---------------------------------------------------------------------------------------

  function AllOn(): (r: PIIDetectionConfig) {
    PIIDetectionConfig(true, true, true, true, true, true, [])
  }

  /**
   * Text with one e-mail, one SSN and one phone number and nothing else: all three labels,
   * `hasPII`, and three redactions.
   */
  lemma MultipleCategories(e: Engine, text: string)
    requires e.matchCount(BuiltinRegex(SSN), text) == 1
    requires e.matchCount(BuiltinRegex(Email), text) == 1
    requires e.matchCount(BuiltinRegex(PhoneNumber), text) == 1
    requires e.matchCount(BuiltinRegex(CreditCard), text) == 0
    requires e.matchCount(BuiltinRegex(IPAddress), text) == 0
    requires e.matchCount(BuiltinRegex(APIKey), text) == 0
    ensures DetectSpec(e, AllOn(), text).Success?
    ensures var r := DetectSpec(e, AllOn(), text).value;
      r.hasPII && "Email" in r.detectedTypes && "SSN" in r.detectedTypes && "Phone Number" in r.detectedTypes &&
      r.redactedCount == 3
  {
    var phases := StaticPhases(AllOn());
    DetectReport(e, AllOn(), text);
    BuiltinLabelIff(e, AllOn(), text, SSN);
    BuiltinLabelIff(e, AllOn(), text, Email);
    BuiltinLabelIff(e, AllOn(), text, PhoneNumber);
    MatchTotalOfSix(e, text, phases);
    BuiltinPhaseAt(AllOn(), 0);
    BuiltinPhaseAt(AllOn(), 1);
    BuiltinPhaseAt(AllOn(), 2);
    BuiltinPhaseAt(AllOn(), 3);
    BuiltinPhaseAt(AllOn(), 4);
    BuiltinPhaseAt(AllOn(), 5);
  }

  const EmployeeId := CustomPattern("Employee ID", @"EMP-\d{6}", "[REDACTED_EMPLOYEE_ID]")

  function CustomOnly(): (r: PIIDetectionConfig) {
    PIIDetectionConfig(false, false, false, false, false, false, [EmployeeId])
  }

  /** With every category off, one matching custom pattern is the whole report. */
  lemma CustomPatternOnly(e: Engine, text: string)
    requires e.compiles(EmployeeId.pattern, "g")
    requires e.matchCount(Regex(EmployeeId.pattern, "g"), text) > 0
    ensures DetectSpec(e, CustomOnly(), text) == Success(PIIDetectionResult(
      true, ["Employee ID"],
      e.replaceAll(Regex(EmployeeId.pattern, "g"), text, "[REDACTED_EMPLOYEE_ID]"),
      e.matchCount(Regex(EmployeeId.pattern, "g"), text)))
  {
    var config := CustomOnly();
    var builtins := BuiltinPhases(config);
    BuiltinsOff(config);
    RunGatedQuiet(e, text, Start(text), builtins);
    RunGatedAppend(e, text, Start(text), builtins, CustomPhases(config.customPatterns));
    assert CustomPhases(config.customPatterns)[..0] == [];
    assert CompileFailure(e, config.customPatterns) == None by {
      assert config.customPatterns[..0] == [];
    }
  }
}
