/**
 * What the rule registry promises, proved about its specification functions: last write
 * wins when a rule set is registered, how keys can and cannot collide, what `getRules` and
 * `getMetadata` report, what enabling and disabling change, which files a load registers,
 * and how the load-time validator compares with the strict one.
 */
module RegistryFacts {
  import opened Wrappers
  import opened Seqs
  import opened RegexOracle
  import opened RuleModel
  import opened JsMap
  import opened Validator
  import opened ValidatorFacts
  import opened RuleRegistry

  // ---------------------------------------------------------------------------------------
  // Keys
  // ---------------------------------------------------------------------------------------

  /** Two keys below the same prefix are equal only for equal suffixes. */
  lemma KeySuffixInjective(p: string, a: string, b: string)
    requires p + ":" + a == p + ":" + b
    ensures a == b
  {
    assert a == (p + ":" + a)[|p| + 1..];
    assert b == (p + ":" + b)[|p| + 1..];
  }

  lemma KeySuffixDistinct(p: string, a: string, b: string)
    requires a != b
    ensures p + ":" + a != p + ":" + b
  {
    assert a == (p + ":" + a)[|p| + 1..];
    assert b == (p + ":" + b)[|p| + 1..];
  }

  /** Splitting at the first colon: a colon-free head is recovered from the joined string. */
  lemma SplitAtColon(a: string, b: string, c: string, d: string)
    requires ':' !in a && ':' !in c
    requires a + ":" + b == c + ":" + d
    ensures a == c && b == d
  {
    var x := a + ":" + b;
    assert forall i :: 0 <= i < |a| ==> x[i] == a[i];
    assert forall i :: 0 <= i < |c| ==> x[i] == (c + ":" + d)[i] == c[i];
    assert x[|a|] == ':' && x[|c|] == (c + ":" + d)[|c|] == ':';
    assert |a| == |c|;
    assert a == x[..|a|] && c == (c + ":" + d)[..|c|];
    assert b == x[|a| + 1..] && d == (c + ":" + d)[|c| + 1..];
  }

  /** With colon-free sources and set names, a rule key determines its source, set name and id. */
  lemma RuleKeyInjective(s1: string, n1: string, id1: string, s2: string, n2: string, id2: string)
    requires ':' !in s1 && ':' !in s2 && ':' !in n1 && ':' !in n2
    requires RuleKey(RuleSetKey(s1, n1), id1) == RuleKey(RuleSetKey(s2, n2), id2)
    ensures s1 == s2 && n1 == n2 && id1 == id2
  {
    assert RuleKey(RuleSetKey(s1, n1), id1) == s1 + ":" + (n1 + ":" + id1);
    assert RuleKey(RuleSetKey(s2, n2), id2) == s2 + ":" + (n2 + ":" + id2);
    SplitAtColon(s1, n1 + ":" + id1, s2, n2 + ":" + id2);
    SplitAtColon(n1, id1, n2, id2);
  }

  /** Without that condition two different rules of one source share a key, and the later one replaces the earlier. */
  lemma RuleKeysCanCollide()
    ensures exists n1, id1, n2, id2 ::
      (n1, id1) != (n2, id2) && RuleKey(RuleSetKey("core", n1), id1) == RuleKey(RuleSetKey("core", n2), id2)
  {
    var n1, id1, n2, id2 := "pii:extra", "ssn", "pii", "extra:ssn";
    assert RuleKey(RuleSetKey("core", n1), id1) == "core:pii:extra:ssn";
    assert RuleKey(RuleSetKey("core", n2), id2) == "core:pii:extra:ssn";
    assert n1 != n2 by { assert |n1| != |n2|; }
  }

  /** Keys written by different directories never coincide, so no source overwrites another's entries. */
  lemma SourceKeysDisjoint(s1: string, s2: string, n1: string, n2: string, tail1: string, tail2: string)
    requires s1 in ["core", "community", "vendor"] && s2 in ["core", "community", "vendor"] && s1 != s2
    ensures RuleSetKey(s1, n1) + tail1 != RuleSetKey(s2, n2) + tail2
  {
    assert (RuleSetKey(s1, n1) + tail1)[..3] == s1[..3];
    assert (RuleSetKey(s2, n2) + tail2)[..3] == s2[..3];
    assert "core"[2] == 'r' && "community"[2] == 'm' && "vendor"[0] == 'v' && "core"[0] == 'c' && "community"[0] == 'c';
    assert s1[..3] != s2[..3] by {
      assert s1[..3][0] == s1[0] && s1[..3][2] == s1[2];
      assert s2[..3][0] == s2[0] && s2[..3][2] == s2[2];
    }
  }

  // ---------------------------------------------------------------------------------------
  // registerRuleSet
  // ---------------------------------------------------------------------------------------

  /** A key no rule of the set maps to keeps its entry. */
  lemma {:induction false} StoreRulesUntouched(m: OrderedMap<Rule>, p: string, rules: seq<Rule>, k: string)
    requires m.Valid()
    requires forall i :: 0 <= i < |rules| ==> RuleKey(p, rules[i].id) != k
    ensures StoreRules(m, p, rules).Get(k) == m.Get(k)
  {
    if rules != [] {
      var init := rules[..|rules| - 1];
      assert forall i :: 0 <= i < |init| ==> init[i] == rules[i];
      StoreRulesUntouched(m, p, init, k);
    }
  }

  /** A rule's key holds that rule when no later rule of the set has the same id. */
  lemma {:induction false} StoreRulesLastWins(m: OrderedMap<Rule>, p: string, rules: seq<Rule>, i: nat)
    requires m.Valid() && i < |rules|
    requires forall j :: i < j < |rules| ==> rules[j].id != rules[i].id
    ensures StoreRules(m, p, rules).Get(RuleKey(p, rules[i].id)) == Some(rules[i])
  {
    var n := |rules| - 1;
    var init := rules[..n];
    var before := StoreRules(m, p, init);
    assert StoreRules(m, p, rules) == before.Set(RuleKey(p, rules[n].id), rules[n]);
    if i < n {
      assert forall j :: i <= j < n ==> init[j] == rules[j];
      StoreRulesLastWins(m, p, init, i);
      KeySuffixDistinct(p, rules[n].id, rules[i].id);
      OtherKeyKept(before, RuleKey(p, rules[n].id), rules[n], RuleKey(p, rules[i].id));
    }
  }

  lemma OtherKeyKept<V>(m: OrderedMap<V>, k: string, v: V, other: string)
    requires m.Valid() && other != k
    ensures m.Set(k, v).Get(other) == m.Get(other)
  {
  }

  /** Every stored rule was either there before, under that key, or is one of the set's rules. */
  lemma {:induction false} StoreRulesFrom(m: OrderedMap<Rule>, p: string, rules: seq<Rule>, k: string)
    requires m.Valid() && k in StoreRules(m, p, rules).entries
    ensures || (k in m.entries && StoreRules(m, p, rules).entries[k] == m.entries[k])
            || StoreRules(m, p, rules).entries[k] in rules
  {
    if rules != [] {
      var init := rules[..|rules| - 1];
      var last := rules[|rules| - 1];
      var before := StoreRules(m, p, init);
      if k != RuleKey(p, last.id) {
        assert before.Get(k) == StoreRules(m, p, rules).Get(k);
        StoreRulesFrom(m, p, init, k);
        if StoreRules(m, p, rules).entries[k] in init {
          var j :| 0 <= j < |init| && init[j] == StoreRules(m, p, rules).entries[k];
          assert rules[j] == init[j];
        }
      }
    }
  }

  /**
   * `registerRuleSet`: the set is stored under `source:name`, each of its rules under
   * `source:name:id` unless a later rule of the set has the same id, and every other key
   * keeps its entry.
   */
  lemma RegisterLastWriteWins(reg: Registry, rs: RuleSet, source: string, k: string)
    requires reg.Valid() && rs.rules.Some?
    ensures Register(reg, rs, source).ruleSets.Get(RuleSetKey(source, rs.name)) == Some(rs)
    ensures k != RuleSetKey(source, rs.name) ==> Register(reg, rs, source).ruleSets.Get(k) == reg.ruleSets.Get(k)
    ensures (forall i :: 0 <= i < |rs.rules.value| ==> RuleKey(RuleSetKey(source, rs.name), rs.rules.value[i].id) != k)
            ==> Register(reg, rs, source).rules.Get(k) == reg.rules.Get(k)
    ensures forall i ::
      (0 <= i < |rs.rules.value| && (forall j :: i < j < |rs.rules.value| ==> rs.rules.value[j].id != rs.rules.value[i].id))
      ==> Register(reg, rs, source).rules.Get(RuleKey(RuleSetKey(source, rs.name), rs.rules.value[i].id)) == Some(rs.rules.value[i])
  {
    var setKey := RuleSetKey(source, rs.name);
    var rules := rs.rules.value;
    if forall i :: 0 <= i < |rules| ==> RuleKey(setKey, rules[i].id) != k {
      StoreRulesUntouched(reg.rules, setKey, rules, k);
    }
    forall i | 0 <= i < |rules| && (forall j :: i < j < |rules| ==> rules[j].id != rules[i].id)
      ensures Register(reg, rs, source).rules.Get(RuleKey(setKey, rules[i].id)) == Some(rules[i])
    {
      StoreRulesLastWins(reg.rules, setKey, rules, i);
    }
  }

  // ---------------------------------------------------------------------------------------
  // getRules
  // ---------------------------------------------------------------------------------------

  /** `getRules` returns exactly the registered rules that satisfy every supplied predicate. */
  lemma GetRulesMembers(values: seq<Rule>, filter: Option<RuleFilter>, r: Rule)
    ensures r in Filter(values, AdmitsFn(filter)) <==>
      && r in values
      && (filter.Some? ==>
            && (filter.value.enabled.Some? ==> r.enabled == Some(filter.value.enabled.value))
            && (filter.value.category != "" ==> r.category == Some(filter.value.category))
            && (filter.value.severity != "" ==> r.severity == Some(filter.value.severity))
            && (filter.value.minConfidence.Some? ==>
                  r.confidence.Some? && r.confidence.value >= filter.value.minConfidence.value))
  {
    var result := Filter(values, AdmitsFn(filter));
    if r in result {
      var i :| 0 <= i < |result| && result[i] == r;
      assert AdmitsFn(filter)(r);
    }
    if r in values && Admits(filter, r) {
      var i :| 0 <= i < |values| && values[i] == r;
      assert AdmitsFn(filter)(values[i]);
    }
  }

  /** No filter, or a filter with every field absent, returns every registered rule in insertion order. */
  lemma EmptyFilterKeepsAll(values: seq<Rule>)
    ensures Filter(values, AdmitsFn(None)) == values
    ensures Filter(values, AdmitsFn(Some(RuleFilter(None, "", "", None)))) == values
  {
    FilterAll(values, AdmitsFn(None));
    FilterAll(values, AdmitsFn(Some(RuleFilter(None, "", "", None))));
  }

  // ---------------------------------------------------------------------------------------
  // getMetadata
  // ---------------------------------------------------------------------------------------

  /** The numbers a record holds, in key order; a concatenated string contributes nothing. */
  function Counts(vs: seq<Tallied>): (ns: seq<nat>)
    ensures |ns| == |vs|
    ensures forall i :: 0 <= i < |vs| ==> ns[i] == CountOf(vs[i])
  {
    seq(|vs|, i requires 0 <= i < |vs| => CountOf(vs[i]))
  }

  function CountOf(v: Tallied): (r: nat) {
    if v.Count? then v.n else 0
  }

  /** How many elements of `s` are ordinary property names. */
  function OrdinaryCount(s: seq<string>): (n: nat)
    ensures n <= |s|
  {
    if s == [] then 0 else OrdinaryCount(s[..|s| - 1]) + (if Ordinary(s[|s| - 1]) then 1 else 0)
  }

  function NotProto(): (r: string -> bool) {
    (k: string) => k != ProtoKey
  }

  /**
   * A counting record has one key per distinct value other than `__proto__`, in the order of
   * first appearance.
   */
  lemma {:induction false} TallyKeys(s: seq<string>)
    ensures Tally(s).keys == Dedup(Filter(s, NotProto()))
  {
    if s != [] {
      var init := s[..|s| - 1];
      var c := s[|s| - 1];
      TallyKeys(init);
      var f := Filter(init, NotProto());
      TallySnoc(s, c);
      BumpKeys(Tally(init), c);
      if c != ProtoKey {
        assert Filter(s, NotProto()) == f + [c];
        DedupSnoc(f, c);
      } else {
        assert Filter(s, NotProto()) == f;
      }
    }
  }

  /** Deduplicating one more value keeps it only if it is new. */
  lemma DedupSnoc(f: seq<string>, c: string)
    ensures Dedup(f + [c]) == if c in Dedup(f) then Dedup(f) else Dedup(f) + [c]
  {
    assert (f + [c])[..|f|] == f;
  }

  /**
   * What the record holds under each name: nothing under `__proto__`; the number of
   * occurrences under an ordinary name; under an inherited method's name, its native source
   * text followed by one "1" per occurrence.
   */
  lemma TallyCounts(s: seq<string>, c: string)
    ensures c == ProtoKey ==> Tally(s).Get(c) == None
    ensures Ordinary(c) ==>
      Tally(s).Get(c) == if Occurrences(s, c) == 0 then None else Some(Count(Occurrences(s, c)))
    ensures c in InheritedMethods ==>
      Tally(s).Get(c) == if Occurrences(s, c) == 0 then None
                         else Some(Concatenated(NativeSource(c), Occurrences(s, c)))
  {
    if c == ProtoKey {
      TallyProto(s);
    } else if c in InheritedMethods {
      TallyInherited(s, c);
    } else {
      TallyOrdinary(s, c);
    }
  }

  lemma {:induction false} TallyProto(s: seq<string>)
    ensures ProtoKey !in Tally(s).entries
  {
    if s != [] {
      TallyProto(s[..|s| - 1]);
    }
  }

  lemma {:induction false} TallyOrdinary(s: seq<string>, c: string)
    requires Ordinary(c)
    ensures Tally(s).Get(c) == if Occurrences(s, c) == 0 then None else Some(Count(Occurrences(s, c)))
  {
    if s != [] {
      var init := s[..|s| - 1];
      var last := s[|s| - 1];
      TallyOrdinary(init, c);
      TallySnoc(s, c);
      if last == c {
        BumpOrdinarySame(Tally(init), c);
      } else {
        BumpOther(Tally(init), last, c);
      }
    }
  }

  lemma {:induction false} TallyInherited(s: seq<string>, c: string)
    requires c in InheritedMethods
    ensures Tally(s).Get(c) == if Occurrences(s, c) == 0 then None
                               else Some(Concatenated(NativeSource(c), Occurrences(s, c)))
  {
    if s != [] {
      var init := s[..|s| - 1];
      var last := s[|s| - 1];
      TallyInherited(init, c);
      TallySnoc(s, c);
      if last == c {
        BumpInheritedSame(Tally(init), c);
      } else {
        BumpOther(Tally(init), last, c);
      }
    }
  }

  /** Peeling off the last value of a counted list. */
  lemma TallySnoc(s: seq<string>, c: string)
    requires s != []
    ensures Tally(s) == Bump(Tally(s[..|s| - 1]), s[|s| - 1])
    ensures Occurrences(s, c) == Occurrences(s[..|s| - 1], c) + if s[|s| - 1] == c then 1 else 0
  {
  }

  /** Counting a value adds its name last, unless it is `__proto__` or already a key. */
  lemma BumpKeys(t: OrderedMap<Tallied>, k: string)
    requires t.Valid()
    ensures Bump(t, k).keys == if k == ProtoKey || k in t.entries then t.keys else t.keys + [k]
  {
  }

  /** Counting an ordinary name starts it at one or adds one to it. */
  lemma BumpOrdinarySame(t: OrderedMap<Tallied>, c: string)
    requires t.Valid() && Ordinary(c)
    ensures Bump(t, c).Get(c) == Some(if c in t.entries then PlusOne(t.entries[c]) else Count(1))
  {
  }

  /** Counting one more value leaves every other name's entry as it was. */
  lemma BumpOther(t: OrderedMap<Tallied>, k: string, c: string)
    requires t.Valid() && k != c
    ensures Bump(t, k).Get(c) == t.Get(c)
  {
  }

  /** Counting an inherited method's name starts from its source text, or appends one "1". */
  lemma BumpInheritedSame(t: OrderedMap<Tallied>, c: string)
    requires t.Valid() && c in InheritedMethods
    ensures Bump(t, c).Get(c) ==
      Some(if c in t.entries then PlusOne(t.entries[c]) else Concatenated(NativeSource(c), 1))
  {
    ProtoNotInherited();
  }

  lemma ProtoNotInherited()
    ensures ProtoKey !in InheritedMethods
  {
  }

  /** The numbers in the record add up to the number of ordinary names counted. */
  lemma {:induction false} TallySum(s: seq<string>)
    ensures Sum(Counts(Tally(s).Values())) == OrdinaryCount(s)
  {
    if s != [] {
      var init := s[..|s| - 1];
      var c := s[|s| - 1];
      var t := Tally(init);
      TallySum(init);
      assert Tally(s) == Bump(t, c);
      if c == ProtoKey {
        assert Tally(s) == t;
      } else if c in t.entries {
        SumCountsSetPresent(t, c, PlusOne(t.entries[c]));
        TallyCounts(init, c);
      } else {
        SumCountsSetAbsent(t, c, if c in InheritedMethods then Concatenated(NativeSource(c), 1) else Count(1));
      }
    }
  }

  /** Overwriting a key changes the record's total by the difference of the two values. */
  lemma SumCountsSetPresent(t: OrderedMap<Tallied>, c: string, v: Tallied)
    requires t.Valid() && c in t.entries
    ensures Sum(Counts(t.Set(c, v).Values())) + CountOf(t.entries[c]) == Sum(Counts(t.Values())) + CountOf(v)
  {
    var i := KeyPosition(t, c);
    SetPresentValues(t, i, v);
    var ns := Counts(t.Values());
    assert Counts(t.Values()[i := v]) == ns[i := CountOf(v)];
    SumUpdate(ns, i, CountOf(v));
  }

  /** Adding a key adds its value to the record's total. */
  lemma SumCountsSetAbsent(t: OrderedMap<Tallied>, c: string, v: Tallied)
    requires t.Valid() && c !in t.entries
    ensures Sum(Counts(t.Set(c, v).Values())) == Sum(Counts(t.Values())) + CountOf(v)
  {
    SetAbsentValues(t, c, v);
    assert Counts(t.Values() + [v]) == Counts(t.Values()) + [CountOf(v)];
    SumAppend(Counts(t.Values()), [CountOf(v)]);
    assert Sum([CountOf(v)]) == Sum([]) + CountOf(v);
  }

  /** When every name counted is ordinary, the numbers add up to the number of values. */
  lemma {:induction false} OrdinaryCountAll(s: seq<string>)
    requires forall i :: 0 <= i < |s| ==> Ordinary(s[i])
    ensures OrdinaryCount(s) == |s|
  {
    if s != [] {
      OrdinaryCountAll(s[..|s| - 1]);
    }
  }

  /**
   * `getMetadata`: `totalRules` is the number of keys, `enabledRules` is at most that, every
   * ordinary category or severity maps to the number of rules carrying it, the numbers in each
   * record add up to the rules whose value is an ordinary name (to all of them when no rule uses
   * an `Object.prototype` name), and `sources` lists the rule-set keys.
   */
  lemma MetadataCounts(reg: Registry, category: string, severity: string)
    requires reg.Valid()
    ensures Metadata(reg).totalRules == reg.rules.Size()
    ensures Metadata(reg).enabledRules <= Metadata(reg).totalRules
    ensures Sum(Counts(Metadata(reg).categories.Values())) == OrdinaryCount(CategoryList(reg.rules.Values()))
    ensures Sum(Counts(Metadata(reg).severities.Values())) == OrdinaryCount(SeverityList(reg.rules.Values()))
    ensures (forall r :: r in reg.rules.Values() ==> Ordinary(PropertyKey(r.category))) ==>
              Sum(Counts(Metadata(reg).categories.Values())) == Metadata(reg).totalRules
    ensures (forall r :: r in reg.rules.Values() ==> Ordinary(PropertyKey(r.severity))) ==>
              Sum(Counts(Metadata(reg).severities.Values())) == Metadata(reg).totalRules
    ensures Ordinary(category) ==>
              Metadata(reg).categories.Get(category) ==
                if Occurrences(CategoryList(reg.rules.Values()), category) == 0 then None
                else Some(Count(Occurrences(CategoryList(reg.rules.Values()), category)))
    ensures Ordinary(severity) ==>
              Metadata(reg).severities.Get(severity) ==
                if Occurrences(SeverityList(reg.rules.Values()), severity) == 0 then None
                else Some(Count(Occurrences(SeverityList(reg.rules.Values()), severity)))
    ensures Metadata(reg).sources == reg.ruleSets.keys
  {
    var values := reg.rules.Values();
    var categories := CategoryList(values);
    var severities := SeverityList(values);
    TallySum(categories);
    TallySum(severities);
    TallyCounts(categories, category);
    TallyCounts(severities, severity);
    if forall r :: r in values ==> Ordinary(PropertyKey(r.category)) {
      forall i | 0 <= i < |categories| ensures Ordinary(categories[i]) {
        assert values[i] in values;
      }
      OrdinaryCountAll(categories);
    }
    if forall r :: r in values ==> Ordinary(PropertyKey(r.severity)) {
      forall i | 0 <= i < |severities| ensures Ordinary(severities[i]) {
        assert values[i] in values;
      }
      OrdinaryCountAll(severities);
    }
  }

  /** A registry holding one rule under `k`. */
  function SingleRuleRegistry(k: string, r: Rule): (reg: Registry)
    ensures reg.Valid()
  {
    Registry(OrderedMap([k], map[k := r]), Empty())
  }

  /** The category record of a one-rule registry is the record of that rule's category alone. */
  lemma SingleRuleCategories(k: string, r: Rule)
    ensures Metadata(SingleRuleRegistry(k, r)).categories == Bump(Empty(), PropertyKey(r.category))
  {
    var values := SingleRuleRegistry(k, r).rules.Values();
    assert values == [r];
    var cats := CategoryList(values);
    assert cats == [PropertyKey(r.category)];
    assert cats[..0] == [];
    assert Tally(cats) == Bump(Tally([]), cats[0]);
    assert Tally([]) == Empty<Tallied>();
  }

  /**
   * A rule whose category is `__proto__` is counted nowhere: the category record stays empty
   * although `totalRules` is 1.
   */
  lemma ProtoCategoryUncounted(k: string, r: Rule)
    requires r.category == Some(ProtoKey)
    ensures Metadata(SingleRuleRegistry(k, r)).totalRules == 1
    ensures Metadata(SingleRuleRegistry(k, r)).categories.keys == []
  {
    SingleRuleCategories(k, r);
  }

  /**
   * A rule whose category is `constructor` stores a string, not a count, under that name: the
   * source text of `Object` followed by "1".
   */
  lemma ConstructorCategoryConcatenated(k: string, r: Rule)
    requires r.category == Some("constructor")
    ensures Metadata(SingleRuleRegistry(k, r)).categories.Get("constructor") == Some(Concatenated(ObjectSource, 1))
    ensures Metadata(SingleRuleRegistry(k, r)).categories.entries["constructor"].Text() == ObjectSource + "1"
  {
    SingleRuleCategories(k, r);
    assert "constructor" in InheritedMethods;
    assert Ones(1) == "1";
  }

  lemma UndefinedIsOrdinary()
    ensures Ordinary("undefined")
  {
    assert "undefined"[0] != ProtoKey[0];
  }

  /** A rule without a category is counted under the name "undefined". */
  lemma AbsentCategoryCountedAsUndefined(k: string, r: Rule)
    requires r.category.None?
    ensures Metadata(SingleRuleRegistry(k, r)).categories.Get("undefined") == Some(Count(1))
  {
    SingleRuleCategories(k, r);
    UndefinedIsOrdinary();
  }

  // ---------------------------------------------------------------------------------------
  // enableRule and disableRule
  // ---------------------------------------------------------------------------------------

  /** Only the named rule changes, and only in its `enabled` flag; an unknown key changes nothing. */
  lemma WithEnabledOnlyThatRule(m: OrderedMap<Rule>, k: string, enabled: bool, other: string)
    requires m.Valid()
    ensures WithEnabled(m, k, enabled).Size() == m.Size()
    ensures k !in m.entries ==> WithEnabled(m, k, enabled) == m
    ensures k in m.entries ==> WithEnabled(m, k, enabled).Get(k) == Some(m.entries[k].(enabled := Some(enabled)))
    ensures other != k ==> WithEnabled(m, k, enabled).Get(other) == m.Get(other)
  {
  }

  /** Enabling (or disabling) twice is the same as once. */
  lemma WithEnabledIdempotent(m: OrderedMap<Rule>, k: string, enabled: bool)
    requires m.Valid()
    ensures WithEnabled(WithEnabled(m, k, enabled), k, enabled) == WithEnabled(m, k, enabled)
  {
  }

  /**
   * Disabling and then re-enabling an enabled rule (or the reverse) restores the registry; a
   * rule that had no `enabled` property is left with one, so it is not restored.
   */
  lemma ToggleRestores(m: OrderedMap<Rule>, k: string, b: bool)
    requires m.Valid() && k in m.entries
    ensures WithEnabled(WithEnabled(m, k, !b), k, b) == m <==> m.entries[k].enabled == Some(b)
  {
    var r := m.entries[k];
    var m' := WithEnabled(WithEnabled(m, k, !b), k, b);
    assert m'.entries[k] == r.(enabled := Some(b));
    if r.enabled == Some(b) {
      assert r.(enabled := Some(b)) == r;
      assert m.entries[k := r] == m.entries;
    }
  }

  /** Toggling a rule leaves the category and severity counts and the totals as they were. */
  lemma WithEnabledKeepsCounts(reg: Registry, k: string, enabled: bool)
    requires reg.Valid()
    ensures Metadata(reg.(rules := WithEnabled(reg.rules, k, enabled))).categories == Metadata(reg).categories
    ensures Metadata(reg.(rules := WithEnabled(reg.rules, k, enabled))).severities == Metadata(reg).severities
    ensures Metadata(reg.(rules := WithEnabled(reg.rules, k, enabled))).totalRules == Metadata(reg).totalRules
  {
    var before := reg.rules.Values();
    var after := WithEnabled(reg.rules, k, enabled).Values();
    assert CategoryList(after) == CategoryList(before);
    assert SeverityList(after) == SeverityList(before);
  }

  /** After `enableRule(k)`, the rule under `k` is among `getRules({ enabled: true })`. */
  lemma EnabledRuleIsListed(m: OrderedMap<Rule>, k: string)
    requires m.Valid() && k in m.entries
    ensures m.entries[k].(enabled := Some(true)) in Filter(WithEnabled(m, k, true).Values(), AdmitsFn(Some(RuleFilter(Some(true), "", "", None))))
  {
    var m' := WithEnabled(m, k, true);
    var i := KeyPosition(m', k);
    GetRulesMembers(m'.Values(), Some(RuleFilter(Some(true), "", "", None)), m'.Values()[i]);
  }

  // ---------------------------------------------------------------------------------------
  // Loading and reloading
  // ---------------------------------------------------------------------------------------

  /** The rules of the registered files, in load order. */
  function AcceptedRules(e: Engine, files: seq<RuleFile>): (r: seq<Rule>) {
    if files == [] then []
    else
      var last := files[|files| - 1];
      AcceptedRules(e, files[..|files| - 1]) + (if Admitted(e, last) then last.content.value.rules.value else [])
  }

  function DirectoryRules(e: Engine, dir: Option<seq<RuleFile>>): (r: seq<Rule>) {
    if dir.None? then [] else AcceptedRules(e, dir.value)
  }

  /** Only `.json` files are considered: dropping every other file changes nothing. */
  lemma {:induction false} LoadIgnoresNonJson(e: Engine, reg: Registry, files: seq<RuleFile>, source: string)
    requires reg.Valid()
    ensures LoadDirectory(e, reg, files, source) == LoadDirectory(e, reg, Filter(files, IsJson()), source)
  {
    if files != [] {
      var init := files[..|files| - 1];
      var last := files[|files| - 1];
      LoadIgnoresNonJson(e, reg, init, source);
      var kept := Filter(init, IsJson());
      if IsJsonFile(last) {
        assert Filter(files, IsJson()) == kept + [last];
        assert (kept + [last])[..|kept|] == kept;
      } else {
        assert Filter(files, IsJson()) == kept;
      }
    }
  }

  /** Every rule set in the registry after a directory load was there before or came from an admitted file. */
  lemma {:induction false} LoadedSetsFromFiles(e: Engine, reg: Registry, files: seq<RuleFile>, source: string, k: string)
    requires reg.Valid() && k in LoadDirectory(e, reg, files, source).ruleSets.entries
    ensures
      || (k in reg.ruleSets.entries && LoadDirectory(e, reg, files, source).ruleSets.entries[k] == reg.ruleSets.entries[k])
      || exists i :: 0 <= i < |files| && Admitted(e, files[i])
           && files[i].content.value == LoadDirectory(e, reg, files, source).ruleSets.entries[k]
           && k == RuleSetKey(source, files[i].content.value.name)
  {
    if files != [] {
      var n := |files| - 1;
      var init := files[..n];
      var before := LoadDirectory(e, reg, init, source);
      var after := LoadDirectory(e, reg, files, source);
      if Admitted(e, files[n]) && k == RuleSetKey(source, files[n].content.value.name) {
        assert after.ruleSets.entries[k] == files[n].content.value;
      } else {
        assert after.ruleSets.Get(k) == before.ruleSets.Get(k);
        LoadedSetsFromFiles(e, reg, init, source, k);
        if !(k in reg.ruleSets.entries && before.ruleSets.entries[k] == reg.ruleSets.entries[k]) {
          var i :| 0 <= i < n && Admitted(e, init[i]) && init[i].content.value == before.ruleSets.entries[k]
            && k == RuleSetKey(source, init[i].content.value.name);
          assert files[i] == init[i];
        }
      }
    }
  }

  /**
   * An admitted file's rule set is in the registry after the load unless a later admitted
   * file of the same directory has the same set name: rejected or unreadable files in
   * between do not stop it.
   */
  lemma {:induction false} LoadedUnlessOverwritten(e: Engine, reg: Registry, files: seq<RuleFile>, source: string, i: nat)
    requires reg.Valid() && i < |files| && Admitted(e, files[i])
    requires forall j :: i < j < |files| && Admitted(e, files[j]) ==> files[j].content.value.name != files[i].content.value.name
    ensures LoadDirectory(e, reg, files, source).ruleSets.Get(RuleSetKey(source, files[i].content.value.name))
            == Some(files[i].content.value)
  {
    var n := |files| - 1;
    if i < n {
      var init := files[..n];
      assert forall j :: i <= j < n ==> init[j] == files[j];
      LoadedUnlessOverwritten(e, reg, init, source, i);
      if Admitted(e, files[n]) {
        KeySuffixDistinct(source, files[n].content.value.name, files[i].content.value.name);
      }
    }
  }

  /** Every rule in the registry after a directory load was there before or belongs to an admitted file. */
  lemma {:induction false} LoadedRulesFromFiles(e: Engine, reg: Registry, files: seq<RuleFile>, source: string, k: string)
    requires reg.Valid() && k in LoadDirectory(e, reg, files, source).rules.entries
    ensures
      || (k in reg.rules.entries && LoadDirectory(e, reg, files, source).rules.entries[k] == reg.rules.entries[k])
      || LoadDirectory(e, reg, files, source).rules.entries[k] in AcceptedRules(e, files)
  {
    if files != [] {
      var n := |files| - 1;
      var init := files[..n];
      var before := LoadDirectory(e, reg, init, source);
      var value := LoadDirectory(e, reg, files, source).rules.entries[k];
      var own := if Admitted(e, files[n]) then files[n].content.value.rules.value else [];
      assert AcceptedRules(e, files) == AcceptedRules(e, init) + own;
      if Admitted(e, files[n]) {
        var rs := files[n].content.value;
        StoreRulesFrom(before.rules, RuleSetKey(source, rs.name), rs.rules.value, k);
      }
      if value !in own {
        assert k in before.rules.entries && value == before.rules.entries[k];
        LoadedRulesFromFiles(e, reg, init, source, k);
      }
    }
  }

  lemma LoadedFromRulesFrom(e: Engine, reg: Registry, dir: Option<seq<RuleFile>>, source: string, k: string)
    requires reg.Valid() && k in LoadFrom(e, reg, dir, source).rules.entries
    ensures
      || (k in reg.rules.entries && LoadFrom(e, reg, dir, source).rules.entries[k] == reg.rules.entries[k])
      || LoadFrom(e, reg, dir, source).rules.entries[k] in DirectoryRules(e, dir)
  {
    if dir.Some? {
      LoadedRulesFromFiles(e, reg, dir.value, source, k);
    }
  }

  /**
   * `reloadRules`: every rule afterwards is a rule of an admitted file, as the file declares
   * it, so an earlier `enableRule` or `disableRule` is not carried over.
   */
  lemma ReloadedRulesComeFromFiles(e: Engine, dirs: RuleDirectories, k: string)
    requires k in LoadAll(e, EmptyRegistry(), dirs).rules.entries
    ensures LoadAll(e, EmptyRegistry(), dirs).rules.entries[k] in
      DirectoryRules(e, dirs.core) + DirectoryRules(e, dirs.community) + DirectoryRules(e, dirs.vendor)
  {
    var r0 := EmptyRegistry();
    var r1 := LoadFrom(e, r0, dirs.core, "core");
    var r2 := LoadFrom(e, r1, dirs.community, "community");
    var r3 := LoadFrom(e, r2, dirs.vendor, "vendor");
    var value := r3.rules.entries[k];
    LoadedFromRulesFrom(e, r2, dirs.vendor, "vendor", k);
    if value !in DirectoryRules(e, dirs.vendor) {
      LoadedFromRulesFrom(e, r1, dirs.community, "community", k);
      if value !in DirectoryRules(e, dirs.community) {
        LoadedFromRulesFrom(e, r0, dirs.core, "core", k);
      }
    }
  }

  // ---------------------------------------------------------------------------------------
  // The load-time validator against the strict validator
  // ---------------------------------------------------------------------------------------

  /** A rule set the strict validator accepts is also accepted at load time. */
  lemma StrictValidImpliesLoadAccepted(e: Engine, rs: RuleSet)
    requires Validate(e, rs).isValid
    ensures LoadAccepts(e, rs)
  {
    ValidIff(e, rs);
    var rules := rs.rules.value;
    assert rs.version != "" by {
      var i, j :| 0 <= i < |rs.version| && i < j < |rs.version| && rs.version[i] == '.';
    }
    forall i | 0 <= i < |rules|
      ensures LoadAcceptsRule(e, rules[i])
    {
      var r := rules[i];
      assert RuleAcceptable(e, r);
      forall j | 0 <= j < |CasesOf(r)|
        ensures TestRulePasses(e, r, CasesOf(r)[j])
      {
        assert CasesOf(r)[j] in r.testCases.value;
        TestCaseHoldsImpliesPasses(e, r, CasesOf(r)[j]);
      }
    }
  }

  /** An engine under which every pattern compiles and nothing matches. */
  function PermissiveEngine(): (r: Engine) {
    Engine((p: string, f: string) => true, (p: string, f: string) => "",
           (re: Regex, s: string) => 0, (re: Regex, s: string, r: string) => s)
  }

  /** A rule set with no description and a rule with an unknown category and severity and no confidence. */
  function LenientRuleSet(): (r: RuleSet) {
    RuleSet("Company", "v2", "", "", None, Some([
      Rule("my:rule", "Employee ID", "", "EMP-\\d{6}", "", Some("[EMP]"), None, Some("internal"), Some("urgent"), Some(true), None)]))
  }

  lemma LenientRuleSetLoads()
    ensures LoadAccepts(PermissiveEngine(), LenientRuleSet())
  {
    assert LoadAcceptsRule(PermissiveEngine(), LenientRuleSet().rules.value[0]);
  }

  lemma LenientRuleSetInvalid()
    ensures !Validate(PermissiveEngine(), LenientRuleSet()).isValid
  {
    assert DescriptionMissing in HeaderIssues(LenientRuleSet());
  }

  /**
   * The converse fails: the loader does not look at the description, the version's shape,
   * the category, the severity or a missing confidence.
   */
  lemma LoaderIsWeaker()
    ensures exists e: Engine, rs: RuleSet :: LoadAccepts(e, rs) && !Validate(e, rs).isValid
  {
    LenientRuleSetLoads();
    LenientRuleSetInvalid();
  }

  /** The loader's verdict does not depend on the fields it does not look at. */
  lemma LoaderIgnoresClassification(e: Engine, rs: RuleSet, description: string, category: Option<string>, severity: Option<string>)
    requires rs.rules.Some?
    ensures LoadAccepts(e, rs.(description := description)) == LoadAccepts(e, rs)
    ensures forall i :: 0 <= i < |rs.rules.value| ==>
      LoadAcceptsRule(e, rs.rules.value[i].(category := category, severity := severity)) == LoadAcceptsRule(e, rs.rules.value[i])
  {
    forall i | 0 <= i < |rs.rules.value|
      ensures LoadAcceptsRule(e, rs.rules.value[i].(category := category, severity := severity)) == LoadAcceptsRule(e, rs.rules.value[i])
    {
      var r := rs.rules.value[i];
      var r' := r.(category := category, severity := severity);
      assert RuleRegex(r') == RuleRegex(r) && CasesOf(r') == CasesOf(r);
      forall tc ensures TestRulePasses(e, r', tc) == TestRulePasses(e, r, tc) {
      }
    }
  }
}
