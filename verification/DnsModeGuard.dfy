/**
 The guard on rule-set metadata updates: a running DNS router keeps the mode it was started in, so an
 update is refused when the rules would ask for the other one.
 */
module DnsModeGuard {
  import opened Wrappers
  import opened DnsRules

  /** `started`, `legacyDNSMode` and `closing` of the router. */
  datatype Phase = NotStarted | Running(legacy: bool) | Closing

  /** `ValidateRuleSetMetadataUpdate` returns no error. */
  ghost predicate Accepts(rules: seq<Rule>, router: Option<RuleSets>, phase: Phase, tag: string, m: RuleSetMetadata) {
    rules == [] ||
    (router.Some? &&
     var mode := ResolveMode(router, rules, map[tag := m]);
     match phase
     case Closing => true
     case NotStarted => mode.Ok? && (!mode.value.0 ==> ReadyForNewMode(rules))
     case Running(legacy) =>
       mode.Ok? && if legacy then !(!mode.value.0 && mode.value.1.disabled) else !mode.value.0)
  }

  method ValidateUpdate(rules: seq<Rule>, router: Option<RuleSets>, phase: Phase, tag: string, m: RuleSetMetadata)
    returns (error: Option<Error>)
    ensures error.None? <==> Accepts(rules, router, phase, tag, m)
  {
    if |rules| == 0 { return None; }
    if router.None? { return Some(RouterMissing); }
    if phase.Closing? { return None; }
    var candidate := ResolveMode(router, rules, map[tag := m]);
    if candidate.Err? { return Some(candidate.error); }
    var (legacy, flags) := candidate.value;
    if phase.NotStarted? {
      if !legacy {
        error := ValidateForNewMode(rules);
        return;
      }
      return None;
    }
    if phase.legacy {
      if !legacy && flags.disabled {
        error := ValidateForNewMode(rules);
        if error.Some? { return; }
        return Some(LegacyAddressFilter);
      }
      return None;
    }
    if legacy { return Some(LegacyAddressFilter); }
    error := None;
  }

  /** Without rules, or once the router is closing, there is no mode to guard; rules need a router to look sets up. */
  lemma GuardStandsAside(rules: seq<Rule>, router: Option<RuleSets>, phase: Phase, tag: string, m: RuleSetMetadata)
    ensures rules == [] || (router.Some? && phase.Closing?) ==> Accepts(rules, router, phase, tag, m)
    ensures rules != [] && router.None? ==> !Accepts(rules, router, phase, tag, m)
  {
  }

  // ---------- Validating with an override is validating the committed table ----------

  lemma {:induction false} RuleSetFlagsCommit(
    table: RuleSets, tags: seq<string>, overrides: RuleSets, c: Conditions, flags: Flags)
    ensures RuleSetFlags(table, tags, overrides, c, flags) == RuleSetFlags(table + overrides, tags, map[], c, flags)
  {
    if tags != [] {
      var m := LookupMetadata(table, tags[0], overrides);
      assert m == LookupMetadata(table + overrides, tags[0], map[]);
      if m.Ok? {
        RuleSetFlagsCommit(table, tags[1..], overrides, c,
                           flags.(disabled := flags.disabled || m.value.containsQueryType,
                                  needed := flags.needed || (!c.matchSource && m.value.containsIPCIDR)));
      }
    }
  }

  lemma {:induction false} RuleFlagsCommit(table: RuleSets, rule: Rule, overrides: RuleSets)
    ensures RuleFlags(Some(table), rule, overrides) == RuleFlags(Some(table + overrides), rule, map[])
    decreases rule, 1
  {
    match rule
    case Default(c, action) =>
      RuleSetFlagsCommit(table, c.ruleSets, overrides, c,
                         Flags(Disables(c, action), NeedsFromAddressFilter(c) || HasStrategy(action),
                               HasStrategy(action)));
    case Logical(rules, _) => AllFlagsCommit(table, rules, overrides);
    case UnknownType =>
  }

  lemma {:induction false} AllFlagsCommit(table: RuleSets, rules: seq<Rule>, overrides: RuleSets)
    ensures AllFlags(Some(table), rules, overrides) == AllFlags(Some(table + overrides), rules, map[])
    decreases rules, 0
  {
    if rules != [] {
      RuleFlagsCommit(table, rules[0], overrides);
      AllFlagsCommit(table, rules[1..], overrides);
    }
  }

  // ---------- Soundness of the running mode ----------

  /**
   Legacy: no rule disables legacy mode. New mode: the rules resolve to the new mode again, without error,
   and remain valid for it.
   */
  ghost predicate Sound(rules: seq<Rule>, table: RuleSets, legacy: bool) {
    if legacy then AllFlags(Some(table), rules, map[]).Ok? && !AllFlags(Some(table), rules, map[]).value.disabled
    else
      && ResolveMode(Some(table), rules, map[]).Ok?
      && !ResolveMode(Some(table), rules, map[]).value.0
      && ReadyForNewMode(rules)
  }

  lemma AcceptedIsSound(rules: seq<Rule>, table: RuleSets, fakeIP: set<string>, legacy: bool)
    requires Accepted(rules, Some(table), fakeIP, legacy)
    ensures Sound(rules, table, legacy)
  {
  }

  /** The guard lets through exactly the updates that keep the running mode sound. */
  lemma GuardIsExact(rules: seq<Rule>, table: RuleSets, legacy: bool, tag: string, m: RuleSetMetadata)
    requires Sound(rules, table, legacy)
    ensures Accepts(rules, Some(table), Running(legacy), tag, m) <==> Sound(rules, table[tag := m], legacy)
  {
    AllFlagsCommit(table, rules, map[tag := m]);
    assert table + map[tag := m] == table[tag := m];
  }

  /** Before the start, accepted updates leave rules that the start will resolve. */
  lemma PrestartUpdateResolves(rules: seq<Rule>, table: RuleSets, tag: string, m: RuleSetMetadata)
    requires rules != []
    ensures Accepts(rules, Some(table), NotStarted, tag, m) <==>
            var mode := ResolveMode(Some(table[tag := m]), rules, map[]);
            mode.Ok? && (mode.value.0 || ReadyForNewMode(rules))
  {
    AllFlagsCommit(table, rules, map[tag := m]);
    assert table + map[tag := m] == table[tag := m];
  }

  type Updates = seq<(string, RuleSetMetadata)>

  ghost function Committed(table: RuleSets, updates: Updates): RuleSets {
    if updates == [] then table
    else Committed(table, updates[..|updates| - 1])[updates[|updates| - 1].0 := updates[|updates| - 1].1]
  }

  ghost predicate EachAccepted(rules: seq<Rule>, table: RuleSets, legacy: bool, updates: Updates) {
    forall i :: 0 <= i < |updates| ==>
      Accepts(rules, Some(Committed(table, updates[..i])), Running(legacy), updates[i].0, updates[i].1)
  }

  /** Any sequence of accepted updates after an accepted start leaves the running mode sound. */
  lemma {:induction false} UpdatesKeepSound(
    rules: seq<Rule>, table: RuleSets, fakeIP: set<string>, legacy: bool, updates: Updates)
    requires Accepted(rules, Some(table), fakeIP, legacy) && EachAccepted(rules, table, legacy, updates)
    ensures Sound(rules, Committed(table, updates), legacy)
  {
    if updates == [] {
      AcceptedIsSound(rules, table, fakeIP, legacy);
    } else {
      var init, last := updates[..|updates| - 1], updates[|updates| - 1];
      assert forall i :: 0 <= i < |init| ==> init[..i] == updates[..i] && init[i] == updates[i];
      UpdatesKeepSound(rules, table, fakeIP, legacy, init);
      GuardIsExact(rules, Committed(table, init), legacy, last.0, last.1);
    }
  }

  // ---------- Updates validated side by side ----------

  /**
   Validation and commit are separate steps, so several rule sets may be validated against the same table
   before any of them commits. A legacy router survives that.
   */
  lemma ConcurrentLegacySafe(rules: seq<Rule>, table: RuleSets, batch: RuleSets)
    requires Sound(rules, table, true)
    requires forall tag :: tag in batch ==> Accepts(rules, Some(table), Running(true), tag, batch[tag])
    ensures Sound(rules, table + batch, true)
  {
    AllFlagsExact(Some(table), rules);
    AllFlagsExact(Some(table + batch), rules);
    assert Resolvable(rules, table + batch);
    if node :| InsideAny(node, rules) && NodeDisables(node, table + batch) {
      BatchDisables(node, table, batch);
      var tag :| tag in batch && NodeDisables(node, table[tag := batch[tag]]);
      AllFlagsExact(Some(table[tag := batch[tag]]), rules);
      GuardIsExact(rules, table, true, tag, batch[tag]);
    }
  }

  /** What a batch disables, one of its members disables alone. */
  lemma BatchDisables(node: Rule, table: RuleSets, batch: RuleSets)
    requires NodeDisables(node, table + batch) && !NodeDisables(node, table)
    ensures exists tag :: tag in batch && NodeDisables(node, table[tag := batch[tag]])
  {
  }

  /** Some rule disables legacy mode by itself, whatever the rule sets contain. */
  ghost predicate DisabledByRule(rules: seq<Rule>) {
    exists node :: InsideAny(node, rules) && NodeDisables(node, map[])
  }

  /** A rule looks the tag up, for query types. */
  ghost predicate Referenced(rules: seq<Rule>, tag: string) {
    exists node :: InsideAny(node, rules) && node.Default? && tag in node.conditions.ruleSets
  }

  /** A rule looks the tag up, for addresses as well: it does not match them against the source. */
  ghost predicate ReferencedForAddresses(rules: seq<Rule>, tag: string) {
    exists node ::
      InsideAny(node, rules) && node.Default? && tag in node.conditions.ruleSets && !node.conditions.matchSource
  }

  /** The referenced rule sets that have query types: what keeps the router in the new mode. */
  ghost function Keepers(rules: seq<Rule>, table: RuleSets): set<string> {
    set tag | tag in table && table[tag].containsQueryType && Referenced(rules, tag)
  }

  /** A referenced rule set brings addresses that legacy mode would be needed for. */
  ghost predicate AsksForLegacy(rules: seq<Rule>, table: RuleSets) {
    exists tag :: tag in table && table[tag].containsIPCIDR && ReferencedForAddresses(rules, tag)
  }

  lemma DisabledIff(rules: seq<Rule>, table: RuleSets)
    ensures (exists node :: InsideAny(node, rules) && NodeDisables(node, table)) <==>
            DisabledByRule(rules) || Keepers(rules, table) != {}
  {
    if node :| InsideAny(node, rules) && NodeDisables(node, table) {
      if !NodeDisables(node, map[]) {
        var tag :| tag in node.conditions.ruleSets && tag in table && table[tag].containsQueryType;
        assert tag in Keepers(rules, table);
      }
    }
    if DisabledByRule(rules) {
      var node :| InsideAny(node, rules) && NodeDisables(node, map[]);
      assert NodeDisables(node, table);
    }
    if tag :| tag in Keepers(rules, table) {
      var node :| InsideAny(node, rules) && node.Default? && tag in node.conditions.ruleSets;
      assert AnyQueryType(node.conditions.ruleSets, table);
      assert NodeDisables(node, table);
    }
  }

  /** Rules fit for the new mode ask for legacy mode through their rule sets only. */
  lemma NeededIff(rules: seq<Rule>, table: RuleSets)
    requires ReadyForNewMode(rules)
    requires forall node :: InsideAny(node, rules) ==> !NodeStrategy(node)
    ensures (exists node :: InsideAny(node, rules) && NodeNeeds(node, table)) <==> AsksForLegacy(rules, table)
  {
    if node :| InsideAny(node, rules) && NodeNeeds(node, table) {
      ReadyNeedsNoFilter(rules, node);
      var tag :| tag in node.conditions.ruleSets && tag in table && table[tag].containsIPCIDR;
      assert ReferencedForAddresses(rules, tag);
    }
    if AsksForLegacy(rules, table) {
      var tag :| tag in table && table[tag].containsIPCIDR && ReferencedForAddresses(rules, tag);
      var node :|
        InsideAny(node, rules) && node.Default? && tag in node.conditions.ruleSets && !node.conditions.matchSource;
      assert AnyIPCIDR(node.conditions.ruleSets, table);
      assert NodeNeeds(node, table);
    }
  }

  lemma ReadyNeedsNoFilter(rules: seq<Rule>, node: Rule)
    requires ReadyForNewMode(rules) && InsideAny(node, rules)
    ensures node.Default? ==> !NeedsFromAddressFilter(node.conditions)
  {
    var i :| 0 <= i < |rules| && Inside(node, rules[i]);
    assert ReadyAt(rules, i);
  }

  /** The new mode survives a change of the table iff something keeps it or nothing asks for the other one. */
  lemma StaysNewIff(rules: seq<Rule>, table: RuleSets, changed: RuleSets)
    requires Sound(rules, table, false) && table.Keys <= changed.Keys
    ensures Sound(rules, changed, false) <==>
            DisabledByRule(rules) || Keepers(rules, changed) != {} || !AsksForLegacy(rules, changed)
  {
    AllFlagsExact(Some(table), rules);
    AllFlagsExact(Some(changed), rules);
    assert Resolvable(rules, changed);
    forall node | InsideAny(node, rules) ensures !NodeStrategy(node) {
      NonLegacyHasNoStrategy(Some(table), rules, node);
    }
    DisabledIff(rules, changed);
    NeededIff(rules, changed);
  }

  ghost predicate EachAlone(rules: seq<Rule>, table: RuleSets, batch: RuleSets) {
    forall tag :: tag in batch ==> Accepts(rules, Some(table), Running(false), tag, batch[tag])
  }

  /**
   No batch can take the new mode away: a rule keeps it, no rule set could ask for the other one, no rule set
   keeps it, or exactly one does, and it alone could ask or another asks already.
   */
  ghost predicate BatchProof(rules: seq<Rule>, table: RuleSets) {
    || DisabledByRule(rules)
    || (forall tag :: !ReferencedForAddresses(rules, tag))
    || Keepers(rules, table) == {}
    || exists keeper ::
         && Keepers(rules, table) == {keeper}
         && ((forall tag :: ReferencedForAddresses(rules, tag) ==> tag == keeper) ||
             (exists tag ::
                tag != keeper && ReferencedForAddresses(rules, tag) && tag in table && table[tag].containsIPCIDR))
  }

  lemma AcceptedAloneIff(rules: seq<Rule>, table: RuleSets, tag: string, m: RuleSetMetadata)
    requires Sound(rules, table, false)
    ensures Accepts(rules, Some(table), Running(false), tag, m) <==>
            DisabledByRule(rules) || Keepers(rules, table[tag := m]) != {} || !AsksForLegacy(rules, table[tag := m])
  {
    GuardIsExact(rules, table, false, tag, m);
    StaysNewIff(rules, table, table[tag := m]);
  }

  lemma KeepersAfter(rules: seq<Rule>, table: RuleSets, tag: string, m: RuleSetMetadata)
    ensures Keepers(rules, table[tag := m]) <= Keepers(rules, table) + {tag}
  {
  }

  /** What asks in the committed table asks alone too, unless it was accepted for keeping the mode as well. */
  lemma AskerIsSeenAlone(rules: seq<Rule>, table: RuleSets, batch: RuleSets, tag: string)
    requires tag in batch && ReferencedForAddresses(rules, tag) && batch[tag].containsIPCIDR
    ensures AsksForLegacy(rules, table[tag := batch[tag]])
    ensures Keepers(rules, table[tag := batch[tag]]) <= Keepers(rules, table) + Keepers(rules, table + batch)
  {
    assert table[tag := batch[tag]][tag].containsIPCIDR;
    forall k | k in Keepers(rules, table[tag := batch[tag]])
      ensures k in Keepers(rules, table) || k in Keepers(rules, table + batch)
    {
      assert k == tag ==> (table + batch)[k] == batch[tag];
    }
  }

  lemma NoKeeperIsSafe(rules: seq<Rule>, table: RuleSets, batch: RuleSets)
    requires Sound(rules, table, false) && EachAlone(rules, table, batch)
    requires !DisabledByRule(rules) && Keepers(rules, table) == {} && Keepers(rules, table + batch) == {}
    ensures !AsksForLegacy(rules, table + batch)
  {
    StaysNewIff(rules, table, table);
    if AsksForLegacy(rules, table + batch) {
      var tag :| tag in table + batch && (table + batch)[tag].containsIPCIDR && ReferencedForAddresses(rules, tag);
      AskerIsSeenAlone(rules, table, batch, tag);
      AcceptedAloneIff(rules, table, tag, batch[tag]);
    }
  }

  lemma OneKeeperIsSafe(rules: seq<Rule>, table: RuleSets, batch: RuleSets, keeper: string)
    requires Sound(rules, table, false) && EachAlone(rules, table, batch)
    requires !DisabledByRule(rules) && Keepers(rules, table) == {keeper} && Keepers(rules, table + batch) == {}
    ensures keeper in batch && (ReferencedForAddresses(rules, keeper) ==> !batch[keeper].containsIPCIDR)
    ensures forall tag :: tag in table && tag != keeper && ReferencedForAddresses(rules, tag) ==>
              !table[tag].containsIPCIDR
  {
    assert keeper in Keepers(rules, table) && keeper !in Keepers(rules, table + batch);
    assert keeper in batch && !batch[keeper].containsQueryType;
    var alone := table[keeper := batch[keeper]];
    KeepersAfter(rules, table, keeper, batch[keeper]);
    assert keeper !in Keepers(rules, alone);
    assert Keepers(rules, alone) == {};
    AcceptedAloneIff(rules, table, keeper, batch[keeper]);
    forall tag | tag in table && ReferencedForAddresses(rules, tag) ensures !alone[tag].containsIPCIDR {
    }
    assert forall tag :: tag in table && tag != keeper ==> alone[tag] == table[tag];
  }

  /** The condition is enough. */
  lemma BatchProofIsSafe(rules: seq<Rule>, table: RuleSets, batch: RuleSets)
    requires Sound(rules, table, false) && BatchProof(rules, table) && EachAlone(rules, table, batch)
    ensures Sound(rules, table + batch, false)
  {
    StaysNewIff(rules, table, table + batch);
    if !DisabledByRule(rules) && Keepers(rules, table + batch) == {} && AsksForLegacy(rules, table + batch) {
      var tag :| tag in table + batch && (table + batch)[tag].containsIPCIDR && ReferencedForAddresses(rules, tag);
      if Keepers(rules, table) == {} {
        NoKeeperIsSafe(rules, table, batch);
      } else {
        var keeper :| Keepers(rules, table) == {keeper};
        OneKeeperIsSafe(rules, table, batch, keeper);
      }
    }
  }

  lemma Another(s: set<string>, x: string) returns (y: string)
    requires s != {} && s != {x}
    ensures y in s && y != x
  {
    y :| y in s;
    if y == x {
      assert s == (s - {x}) + {x};
      y :| y in s - {x};
    }
  }

  /**
   Several keepers: all drop their query types at once, each seen beside the others, while one rule set
   gains addresses.
   */
  lemma ManyKeepersUnsafe(rules: seq<Rule>, table: RuleSets, asker: string) returns (batch: RuleSets)
    requires Sound(rules, table, false) && !DisabledByRule(rules)
    requires ReferencedForAddresses(rules, asker)
    requires Keepers(rules, table) != {} && forall keeper :: Keepers(rules, table) != {keeper}
    ensures EachAlone(rules, table, batch) && !Sound(rules, table + batch, false)
  {
    var keepers := Keepers(rules, table);
    batch := map tag | tag in keepers + {asker} :: RuleSetMetadata(tag == asker, false);
    forall tag | tag in batch ensures Accepts(rules, Some(table), Running(false), tag, batch[tag]) {
      var kept := Another(keepers, tag);
      assert kept in Keepers(rules, table[tag := batch[tag]]);
      AcceptedAloneIff(rules, table, tag, batch[tag]);
    }
    StaysNewIff(rules, table, table + batch);
    assert Keepers(rules, table + batch) == {};
    assert (table + batch)[asker].containsIPCIDR;
  }

  /** One keeper: it drops its query types while another rule set gains the first addresses. */
  lemma OneKeeperUnsafe(rules: seq<Rule>, table: RuleSets, keeper: string, asker: string) returns (batch: RuleSets)
    requires Sound(rules, table, false) && !DisabledByRule(rules)
    requires Keepers(rules, table) == {keeper} && asker != keeper && ReferencedForAddresses(rules, asker)
    requires forall tag :: tag != keeper && ReferencedForAddresses(rules, tag) && tag in table ==>
               !table[tag].containsIPCIDR
    ensures EachAlone(rules, table, batch) && !Sound(rules, table + batch, false)
  {
    batch := map[keeper := PLAIN, asker := IP_CIDR];
    assert keeper in Keepers(rules, table);
    AcceptedAloneIff(rules, table, keeper, PLAIN);
    assert !AsksForLegacy(rules, table[keeper := PLAIN]);
    AcceptedAloneIff(rules, table, asker, IP_CIDR);
    assert keeper in Keepers(rules, table[asker := IP_CIDR]);
    assert table + batch == table[keeper := PLAIN][asker := IP_CIDR];
    KeeperGone(rules, table, keeper, asker);
    StaysNewIff(rules, table, table + batch);
  }

  lemma KeeperGone(rules: seq<Rule>, table: RuleSets, keeper: string, asker: string)
    requires Keepers(rules, table) == {keeper} && asker != keeper && ReferencedForAddresses(rules, asker)
    ensures var changed := table[keeper := PLAIN][asker := IP_CIDR];
            Keepers(rules, changed) == {} && AsksForLegacy(rules, changed)
  {
    var changed := table[keeper := PLAIN][asker := IP_CIDR];
    KeepersAfter(rules, table, keeper, PLAIN);
    KeepersAfter(rules, table[keeper := PLAIN], asker, IP_CIDR);
    assert keeper !in Keepers(rules, changed) && asker !in Keepers(rules, changed);
    assert changed[asker].containsIPCIDR;
  }

  /**
   Exactly when every batch of updates accepted side by side against one table leaves a router sound in the
   new mode.
   */
  lemma NewModeBatchesSafeIff(rules: seq<Rule>, table: RuleSets)
    requires Sound(rules, table, false)
    ensures (forall batch :: EachAlone(rules, table, batch) ==> Sound(rules, table + batch, false)) <==>
            BatchProof(rules, table)
  {
    if BatchProof(rules, table) {
      forall batch | EachAlone(rules, table, batch) ensures Sound(rules, table + batch, false) {
        BatchProofIsSafe(rules, table, batch);
      }
    } else if keeper :| Keepers(rules, table) == {keeper} {
      var asker :| ReferencedForAddresses(rules, asker) && asker != keeper;
      var batch := OneKeeperUnsafe(rules, table, keeper, asker);
    } else {
      var asker :| ReferencedForAddresses(rules, asker);
      var batch := ManyKeepersUnsafe(rules, table, asker);
    }
  }

  /** In particular, when a rule disables legacy mode by itself, accepted or not. */
  lemma ConcurrentStaticSafe(rules: seq<Rule>, table: RuleSets, batch: RuleSets, node: Rule)
    requires Sound(rules, table, false)
    requires InsideAny(node, rules) && NodeDisables(node, map[])
    ensures Sound(rules, table + batch, false)
  {
    StaysNewIff(rules, table, table + batch);
  }

  const QUERY_TYPE := RuleSetMetadata(false, true)
  const IP_CIDR := RuleSetMetadata(true, false)
  const PLAIN := RuleSetMetadata(false, false)

  function RuleSetRule(tag: string): Rule {
    Default(Conditions(false, false, 0, 0, 0, false, false, false, [tag], false, true),
            NO_ACTION.(kind := Route, server := "dns"))
  }

  /**
   The new mode can be lost: one rule set drops its query types while another gains
   addresses, each accepted against the old table, and the two together resolve to legacy mode.
   */
  lemma ConcurrentNewModeUnsafe()
    ensures var rules := [RuleSetRule("a"), RuleSetRule("b")];
            var table := map["a" := QUERY_TYPE, "b" := PLAIN];
            && Accepted(rules, Some(table), {}, false)
            && Accepts(rules, Some(table), Running(false), "a", PLAIN)
            && Accepts(rules, Some(table), Running(false), "b", IP_CIDR)
            && !Sound(rules, table["a" := PLAIN]["b" := IP_CIDR], false)
  {
    var a, b := RuleSetRule("a"), RuleSetRule("b");
    var rules := [a, b];
    var table := map["a" := QUERY_TYPE, "b" := PLAIN];
    assert "a" != "b" by { assert "a"[0] != "b"[0]; }
    TwoRuleMode(table, map[]);
    TwoRuleMode(table, map["a" := PLAIN]);
    TwoRuleMode(table, map["b" := IP_CIDR]);
    TwoRuleMode(table["a" := PLAIN]["b" := IP_CIDR], map[]);
    forall i | 0 <= i < |rules| ensures ReadyAt(rules, i) {
      assert forall node :: Inside(node, rules[i]) <==> node == rules[i];
    }
  }

  lemma TwoRuleMode(table: RuleSets, overrides: RuleSets)
    requires "a" in table && "b" in table
    ensures var rules := [RuleSetRule("a"), RuleSetRule("b")];
            var ma := if "a" in overrides then overrides["a"] else table["a"];
            var mb := if "b" in overrides then overrides["b"] else table["b"];
            var disabled := ma.containsQueryType || mb.containsQueryType;
            var needed := ma.containsIPCIDR || mb.containsIPCIDR;
            ResolveMode(Some(table), rules, overrides) == Ok((!disabled && needed, Flags(disabled, needed, false)))
  {
    var rules := [RuleSetRule("a"), RuleSetRule("b")];
    OneRuleFlags(table, overrides, "a");
    OneRuleFlags(table, overrides, "b");
    assert rules[1..] == [RuleSetRule("b")] && rules[1..][1..] == [];
    assert AllFlags(Some(table), rules[1..][1..], overrides) == Ok(NO_FLAGS);
    assert AllFlags(Some(table), rules[1..], overrides).Ok?;
  }

  lemma OneRuleFlags(table: RuleSets, overrides: RuleSets, tag: string)
    requires tag in table
    ensures var m := if tag in overrides then overrides[tag] else table[tag];
            RuleFlags(Some(table), RuleSetRule(tag), overrides) ==
            Ok(Flags(m.containsQueryType, m.containsIPCIDR, false))
  {
    var c := RuleSetRule(tag).conditions;
    var m := if tag in overrides then overrides[tag] else table[tag];
    assert [tag][1..] == [];
    assert RuleSetFlags(table, [], overrides, c, Flags(m.containsQueryType, m.containsIPCIDR, false)).Ok?;
  }
}
