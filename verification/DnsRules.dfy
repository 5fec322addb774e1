/**
 DNS rule options, the analysis that chooses between the legacy and the new rule interpreter, the
 validators run with it, and the guard on rule-set metadata updates.
 */
module DnsRules {
  import opened Wrappers

  datatype Strategy = AsIs | PreferIPv4 | PreferIPv6 | IPv4Only | IPv6Only

  datatype RouteOptions = RouteOptions(
    strategy: Strategy, disableCache: bool, rewriteTTL: Option<nat>, clientSubnet: Option<string>)

  datatype ActionKind = Unset | Route | Evaluate | Respond | OptionsOnly | Reject | Predefined

  datatype RejectMethod = DefaultMethod | Drop | Reply

  /** `route` is read by route and evaluate actions, `options` by route-options actions. */
  datatype Action = Action(
    kind: ActionKind, server: string, route: RouteOptions, options: RouteOptions, reject: RejectMethod, answer: nat)

  const NO_OPTIONS := RouteOptions(AsIs, false, None, None)
  const NO_ACTION := Action(Unset, "", NO_OPTIONS, NO_OPTIONS, DefaultMethod, 0)

  /** The conditions of a default rule that the analyses read; `constructible` stands for all the others being sound. */
  datatype Conditions = Conditions(
    matchResponse: bool, responseFields: bool, ipVersion: int, queryTypes: nat, ipCidrs: nat, ipIsPrivate: bool,
    ipAcceptAny: bool, acceptEmpty: bool, ruleSets: seq<string>, matchSource: bool, constructible: bool)

  datatype Rule =
    | Default(conditions: Conditions, action: Action)
    | Logical(rules: seq<Rule>, action: Action)
    | UnknownType

  datatype RuleSetMetadata = RuleSetMetadata(containsIPCIDR: bool, containsQueryType: bool)

  type RuleSets = map<string, RuleSetMetadata>

  datatype Error =
    | RouterMissing
    | RuleSetMissing(tag: string)
    | StrategyConflict
    | ResponseFieldsWithoutMatch
    | IPAcceptAnyRemoved
    | AcceptEmptyRemoved
    | MissingEvaluate(rule: nat)
    | LegacyAddressFilter
    | NestedAction
    | EvaluateFakeIP(rule: nat)
    | BadRule

  type Checked<T> = Result<T, Error>

  // ---------- The analysis ----------

  datatype Flags = Flags(disabled: bool, needed: bool, neededFromStrategy: bool)

  const NO_FLAGS := Flags(false, false, false)

  function Merge(a: Flags, b: Flags): Flags {
    Flags(a.disabled || b.disabled, a.needed || b.needed, a.neededFromStrategy || b.neededFromStrategy)
  }

  function ActionType(rule: Rule): ActionKind {
    if rule.UnknownType? then Unset else if rule.action.kind.Unset? then Route else rule.action.kind
  }

  predicate HasStrategy(action: Action) {
    match action.kind
    case Unset | Route | Evaluate => action.route.strategy != AsIs
    case OptionsOnly => action.options.strategy != AsIs
    case _ => false
  }

  predicate NeedsFromAddressFilter(c: Conditions) {
    c.ipAcceptAny || c.acceptEmpty || (!c.matchResponse && (c.ipCidrs > 0 || c.ipIsPrivate))
  }

  predicate Disables(c: Conditions, action: Action) {
    c.matchResponse || c.responseFields || action.kind.Evaluate? || action.kind.Respond? || c.ipVersion > 0
    || c.queryTypes > 0
  }

  /** The override of a metadata update wins over the router's own table. */
  function LookupMetadata(router: RuleSets, tag: string, overrides: RuleSets): Checked<RuleSetMetadata> {
    if tag in overrides then Ok(overrides[tag])
    else if tag in router then Ok(router[tag])
    else Err(RuleSetMissing(tag))
  }

  function RuleSetFlags(
    router: RuleSets, tags: seq<string>, overrides: RuleSets, c: Conditions, flags: Flags): Checked<Flags>
  {
    if tags == [] then Ok(flags)
    else
      var m :- LookupMetadata(router, tags[0], overrides);
      RuleSetFlags(router, tags[1..], overrides, c,
                   flags.(disabled := flags.disabled || m.containsQueryType,
                          needed := flags.needed || (!c.matchSource && m.containsIPCIDR)))
  }

  function DefaultFlags(router: Option<RuleSets>, c: Conditions, action: Action, overrides: RuleSets): Checked<Flags> {
    var strategy := HasStrategy(action);
    var flags := Flags(Disables(c, action), NeedsFromAddressFilter(c) || strategy, strategy);
    if c.ruleSets == [] then Ok(flags)
    else if router.None? then Err(RouterMissing)
    else RuleSetFlags(router.value, c.ruleSets, overrides, c, flags)
  }

  function RuleFlags(router: Option<RuleSets>, rule: Rule, overrides: RuleSets): Checked<Flags>
    decreases rule, 1
  {
    match rule
    case Default(c, action) => DefaultFlags(router, c, action, overrides)
    case Logical(rules, action) =>
      var strategy := HasStrategy(action);
      var flags := Flags(ActionType(rule).Evaluate? || ActionType(rule).Respond?, strategy, strategy);
      var sub :- AllFlags(router, rules, overrides);
      Ok(Merge(flags, sub))
    case UnknownType => Ok(NO_FLAGS)
  }

  /** `dnsRuleModeRequirements`, also the loop over sub-rules. */
  function AllFlags(router: Option<RuleSets>, rules: seq<Rule>, overrides: RuleSets): Checked<Flags>
    decreases rules, 0
  {
    if rules == [] then Ok(NO_FLAGS)
    else
      var first :- RuleFlags(router, rules[0], overrides);
      var rest :- AllFlags(router, rules[1..], overrides);
      Ok(Merge(first, rest))
  }

  /** `resolveLegacyDNSMode`: whether to run in legacy mode, with the flags that decided it. */
  function ResolveMode(router: Option<RuleSets>, rules: seq<Rule>, overrides: RuleSets): Checked<(bool, Flags)> {
    var flags :- AllFlags(router, rules, overrides);
    if flags.disabled && flags.neededFromStrategy then Err(StrategyConflict)
    else if flags.disabled then Ok((false, flags))
    else Ok((flags.needed, flags))
  }

  // ---------- What the flags mean, node by node ----------

  /** `node` is `rule` itself or occurs in it at any depth. */
  ghost predicate Inside(node: Rule, rule: Rule)
    decreases rule
  {
    node == rule || (rule.Logical? && exists i :: 0 <= i < |rule.rules| && Inside(node, rule.rules[i]))
  }

  ghost predicate InsideAny(node: Rule, rules: seq<Rule>) {
    exists i :: 0 <= i < |rules| && Inside(node, rules[i])
  }

  // Each node's part is written out field by field here, apart from the functions of the analysis.

  /** The node sets a strategy for the server it names, or for the rules behind it. */
  predicate NodeStrategy(node: Rule) {
    && !node.UnknownType?
    && var action := node.action;
       || (action.kind in {Unset, Route, Evaluate} && action.route.strategy != AsIs)
       || (action.kind == OptionsOnly && action.options.strategy != AsIs)
  }

  /** The node is about responses, about the question's type or version, or refers to a rule set that is. */
  ghost predicate NodeDisables(node: Rule, table: RuleSets) {
    || (!node.UnknownType? && node.action.kind in {Evaluate, Respond})
    || (node.Default? &&
        var c := node.conditions;
        || c.matchResponse || c.responseFields || c.ipVersion > 0 || c.queryTypes > 0
        || AnyQueryType(c.ruleSets, table))
  }

  /** The node sets a strategy, or filters on the addresses of a response it does not match as a response. */
  ghost predicate NodeNeeds(node: Rule, table: RuleSets) {
    || NodeStrategy(node)
    || (node.Default? &&
        var c := node.conditions;
        || c.ipAcceptAny || c.acceptEmpty
        || ((c.ipCidrs > 0 || c.ipIsPrivate) && !c.matchResponse)
        || (AnyIPCIDR(c.ruleSets, table) && !c.matchSource))
  }

  /** Flags that record exactly what some node of the rules asks for. */
  ghost predicate Exact(flags: Flags, rules: seq<Rule>, table: RuleSets) {
    && (flags.disabled <==> exists node :: InsideAny(node, rules) && NodeDisables(node, table))
    && (flags.needed <==> exists node :: InsideAny(node, rules) && NodeNeeds(node, table))
    && (flags.neededFromStrategy <==> exists node :: InsideAny(node, rules) && NodeStrategy(node))
  }

  /** Every rule set a default rule refers to is present. */
  ghost predicate Resolvable(rules: seq<Rule>, table: RuleSets) {
    forall node, tag :: InsideAny(node, rules) && node.Default? && tag in node.conditions.ruleSets ==> tag in table
  }

  ghost predicate AnyQueryType(tags: seq<string>, table: RuleSets) {
    exists tag :: tag in tags && tag in table && table[tag].containsQueryType
  }

  ghost predicate AnyIPCIDR(tags: seq<string>, table: RuleSets) {
    exists tag :: tag in tags && tag in table && table[tag].containsIPCIDR
  }

  lemma {:induction false} RuleSetFlagsExact(table: RuleSets, tags: seq<string>, c: Conditions, flags: Flags)
    ensures var r := RuleSetFlags(table, tags, map[], c, flags);
            && (r.Ok? <==> forall tag :: tag in tags ==> tag in table)
            && (r.Ok? ==> r.value == Flags(flags.disabled || AnyQueryType(tags, table),
                                           flags.needed || (!c.matchSource && AnyIPCIDR(tags, table)),
                                           flags.neededFromStrategy))
  {
    if tags != [] {
      assert forall tag :: tag in tags <==> tag == tags[0] || tag in tags[1..];
      if tags[0] in table {
        var m := table[tags[0]];
        RuleSetFlagsExact(table, tags[1..], c,
                          flags.(disabled := flags.disabled || m.containsQueryType,
                                 needed := flags.needed || (!c.matchSource && m.containsIPCIDR)));
        assert AnyQueryType(tags, table) <==> m.containsQueryType || AnyQueryType(tags[1..], table);
        assert AnyIPCIDR(tags, table) <==> m.containsIPCIDR || AnyIPCIDR(tags[1..], table);
      }
    }
  }

  function TableOf(router: Option<RuleSets>): RuleSets {
    if router.Some? then router.value else map[]
  }

  ghost predicate FlagsExact(r: Checked<Flags>, rules: seq<Rule>, table: RuleSets) {
    (r.Ok? <==> Resolvable(rules, table)) && (r.Ok? ==> Exact(r.value, rules, table))
  }

  lemma {:induction false} RuleFlagsExact(router: Option<RuleSets>, rule: Rule)
    ensures FlagsExact(RuleFlags(router, rule, map[]), [rule], TableOf(router))
    decreases rule, 1
  {
    match rule
    case Default(_, _) => DefaultExact(router, rule);
    case Logical(rules, _) =>
      AllFlagsExact(router, rules);
      LogicalExact(router, rule);
    case UnknownType =>
      OnlyInside(rule);
      assert forall node :: Inside(node, rule) <==> node == rule;
  }

  lemma DefaultExact(router: Option<RuleSets>, rule: Rule)
    requires rule.Default?
    ensures FlagsExact(RuleFlags(router, rule, map[]), [rule], TableOf(router))
  {
    var Default(c, action) := rule;
    var table := TableOf(router);
    OnlyInside(rule);
    assert InsideAny(rule, [rule]);
    assert forall node :: InsideAny(node, [rule]) <==> node == rule;
    RuleSetFlagsExact(table, c.ruleSets, c,
                      Flags(Disables(c, action), NeedsFromAddressFilter(c) || HasStrategy(action),
                            HasStrategy(action)));
    assert c.ruleSets != [] ==> c.ruleSets[0] in c.ruleSets;
    assert RuleFlags(router, rule, map[]).Ok? ==>
             RuleFlags(router, rule, map[]).value ==
             Flags(NodeDisables(rule, table), NodeNeeds(rule, table), NodeStrategy(rule));
  }

  lemma LogicalExact(router: Option<RuleSets>, rule: Rule)
    requires rule.Logical? && FlagsExact(AllFlags(router, rule.rules, map[]), rule.rules, TableOf(router))
    ensures FlagsExact(RuleFlags(router, rule, map[]), [rule], TableOf(router))
  {
    OnlyInside(rule);
    assert InsideAny(rule, [rule]);
    assert forall node :: InsideAny(node, [rule]) <==> node == rule || InsideAny(node, rule.rules);
  }

  lemma OnlyInside(rule: Rule)
    ensures forall node :: InsideAny(node, [rule]) <==> Inside(node, rule)
  {
    forall node ensures InsideAny(node, [rule]) <==> Inside(node, rule) {
      if Inside(node, rule) { assert Inside(node, [rule][0]); }
    }
  }

  lemma InsideHeadOrTail(rules: seq<Rule>)
    requires rules != []
    ensures forall node :: InsideAny(node, rules) <==> InsideAny(node, [rules[0]]) || InsideAny(node, rules[1..])
  {
    OnlyInside(rules[0]);
    forall node ensures InsideAny(node, rules) <==> InsideAny(node, [rules[0]]) || InsideAny(node, rules[1..]) {
      if InsideAny(node, rules) {
        var i :| 0 <= i < |rules| && Inside(node, rules[i]);
        if i > 0 { assert Inside(node, rules[1..][i - 1]); }
      }
      if InsideAny(node, rules[1..]) {
        var i :| 0 <= i < |rules[1..]| && Inside(node, rules[1..][i]);
        assert Inside(node, rules[i + 1]);
      }
    }
  }

  /** The folded flags are exactly the disjunctions over all nodes of all trees. */
  lemma {:induction false} AllFlagsExact(router: Option<RuleSets>, rules: seq<Rule>)
    ensures FlagsExact(AllFlags(router, rules, map[]), rules, TableOf(router))
    decreases rules, 0
  {
    if rules != [] {
      RuleFlagsExact(router, rules[0]);
      AllFlagsExact(router, rules[1..]);
      InsideHeadOrTail(rules);
    }
  }

  /** When the new mode is chosen, no rule at any depth carries a strategy. */
  lemma NonLegacyHasNoStrategy(router: Option<RuleSets>, rules: seq<Rule>, node: Rule)
    requires ResolveMode(router, rules, map[]).Ok? && !ResolveMode(router, rules, map[]).value.0
    requires InsideAny(node, rules)
    ensures !NodeStrategy(node)
  {
    AllFlagsExact(router, rules);
    assert NodeStrategy(node) ==> NodeNeeds(node, TableOf(router));
  }

  /** When legacy mode is chosen, no rule at any depth is about responses or about the question's type or version. */
  lemma LegacyHasNoResponseRules(router: Option<RuleSets>, rules: seq<Rule>, node: Rule)
    requires ResolveMode(router, rules, map[]).Ok? && ResolveMode(router, rules, map[]).value.0
    requires InsideAny(node, rules) && !node.UnknownType?
    ensures !node.action.kind.Evaluate? && !node.action.kind.Respond?
    ensures node.Default? ==>
              && !node.conditions.matchResponse && !node.conditions.responseFields
              && node.conditions.ipVersion <= 0 && node.conditions.queryTypes == 0
              && forall tag :: tag in node.conditions.ruleSets && tag in TableOf(router) ==>
                   !TableOf(router)[tag].containsQueryType
  {
    AllFlagsExact(router, rules);
    assert !NodeDisables(node, TableOf(router));
  }

  /**
   The mode: an error iff a rule set is missing, or one rule sets a strategy while another rules legacy mode
   out; otherwise legacy iff some rule needs it and none rules it out.
   */
  lemma ModeMeaning(router: Option<RuleSets>, rules: seq<Rule>)
    ensures var mode, table := ResolveMode(router, rules, map[]), TableOf(router);
            var disables := exists node :: InsideAny(node, rules) && NodeDisables(node, table);
            && (mode.Ok? <==>
                  && Resolvable(rules, table)
                  && !(disables && exists node :: InsideAny(node, rules) && NodeStrategy(node)))
            && (mode.Ok? ==> (mode.value.0 <==>
                  !disables && exists node :: InsideAny(node, rules) && NodeNeeds(node, table)))
  {
    AllFlagsExact(router, rules);
  }

  // ---------- Validation of rules for the new mode ----------

  function ValidateDefault(c: Conditions, action: Action): Checked<bool> {
    if (c.responseFields || c.ipCidrs > 0 || c.ipIsPrivate) && !c.matchResponse then Err(ResponseFieldsWithoutMatch)
    else if c.ipAcceptAny then Err(IPAcceptAnyRemoved)
    else if c.acceptEmpty then Err(AcceptEmptyRemoved)
    else Ok(c.matchResponse || action.kind.Respond?)
  }

  /** `validateLegacyDNSModeDisabledRuleTree`: whether the tree needs an evaluated response. */
  function ValidateTree(rule: Rule): Checked<bool>
    decreases rule, 1
  {
    match rule
    case Default(c, action) => ValidateDefault(c, action)
    case Logical(rules, _) =>
      var sub :- ValidateTrees(rules);
      Ok(ActionType(rule).Respond? || sub)
    case UnknownType => Ok(false)
  }

  function ValidateTrees(rules: seq<Rule>): Checked<bool>
    decreases rules, 0
  {
    if rules == [] then Ok(false)
    else
      var first :- ValidateTree(rules[0]);
      var rest :- ValidateTrees(rules[1..]);
      Ok(first || rest)
  }

  /** Response fields come with match_response, and the two retired address filters are not used. */
  predicate NodeValid(node: Rule) {
    node.Default? ==>
      var c := node.conditions;
      && (c.responseFields || c.ipCidrs > 0 || c.ipIsPrivate ==> c.matchResponse)
      && !c.ipAcceptAny && !c.acceptEmpty
  }

  predicate NodeUsesResponse(node: Rule) {
    match node
    case Default(c, action) => c.matchResponse || action.kind.Respond?
    case Logical(_, action) => action.kind.Respond?
    case UnknownType => false
  }

  ghost predicate TreesExact(r: Checked<bool>, rules: seq<Rule>) {
    && (r.Ok? <==> forall node :: InsideAny(node, rules) ==> NodeValid(node))
    && (r.Ok? ==> (r.value <==> exists node :: InsideAny(node, rules) && NodeUsesResponse(node)))
  }

  lemma {:induction false} ValidateTreeExact(rule: Rule)
    ensures TreesExact(ValidateTree(rule), [rule])
    decreases rule, 1
  {
    OnlyInside(rule);
    assert InsideAny(rule, [rule]);
    match rule
    case Logical(rules, _) =>
      ValidateTreesExact(rules);
      assert forall node :: InsideAny(node, [rule]) <==> node == rule || InsideAny(node, rules);
    case _ =>
      assert forall node :: InsideAny(node, [rule]) <==> node == rule;
  }

  lemma {:induction false} ValidateTreesExact(rules: seq<Rule>)
    ensures TreesExact(ValidateTrees(rules), rules)
    decreases rules, 0
  {
    if rules != [] {
      ValidateTreeExact(rules[0]);
      ValidateTreesExact(rules[1..]);
      InsideHeadOrTail(rules);
    }
  }

  /** Response matching, at any depth, only behind a top-level evaluate; no retired or unmatched response field. */
  ghost predicate ReadyForNewMode(rules: seq<Rule>) {
    forall i :: 0 <= i < |rules| ==> ReadyAt(rules, i)
  }

  ghost predicate ReadyAt(rules: seq<Rule>, i: nat)
    requires i < |rules|
  {
    && (forall node :: Inside(node, rules[i]) ==> NodeValid(node))
    && ((exists node :: Inside(node, rules[i]) && NodeUsesResponse(node)) ==> EvaluateBefore(rules, i))
  }

  predicate Evaluates(rule: Rule) {
    !rule.UnknownType? && rule.action.kind == Evaluate
  }

  ghost predicate EvaluateBefore(rules: seq<Rule>, i: nat)
    requires i <= |rules|
  {
    exists j :: 0 <= j < i && Evaluates(rules[j])
  }

  /** `validateLegacyDNSModeDisabledRules` */
  method ValidateForNewMode(rules: seq<Rule>) returns (error: Option<Error>)
    ensures error.None? <==> ReadyForNewMode(rules)
  {
    var seenEvaluate := false;
    var i := 0;
    while i < |rules|
      invariant i <= |rules|
      invariant seenEvaluate <==> EvaluateBefore(rules, i)
      invariant forall k :: 0 <= k < i ==> ReadyAt(rules, k)
    {
      ValidateTreeExact(rules[i]);
      OnlyInside(rules[i]);
      var needs := ValidateTree(rules[i]);
      if needs.Err? {
        assert !ReadyAt(rules, i);
        return Some(needs.error);
      }
      if needs.value && !seenEvaluate {
        assert !ReadyAt(rules, i);
        return Some(MissingEvaluate(i));
      }
      assert ReadyAt(rules, i);
      if ActionType(rules[i]).Evaluate? { seenEvaluate := true; }
      i := i + 1;
    }
    error := None;
  }

  // ---------- Building the runtime rules ----------

  /** No action below the top level. */
  predicate NoNestedActions(rule: Rule, nested: bool)
    decreases rule
  {
    && (nested && !rule.UnknownType? ==> rule.action == NO_ACTION)
    && (rule.Logical? ==> forall i :: 0 <= i < |rule.rules| ==> NoNestedActions(rule.rules[i], true))
  }

  predicate ActionAllowed(action: Action, top: bool) {
    && !(!top && action.kind.Evaluate?)
    && !(action.kind.Reject? && action.reject.Reply?)
    && (top && (action.kind.Unset? || action.kind.Route? || action.kind.Evaluate?) ==> action.server != "")
  }

  /** `NewDNSRule` succeeds. */
  predicate Constructible(rule: Rule, top: bool, legacy: bool)
    decreases rule
  {
    match rule
    case Default(c, action) =>
      c.constructible && ActionAllowed(action, top) && (c.ipAcceptAny || c.acceptEmpty ==> legacy)
    case Logical(rules, action) =>
      && rules != [] && ActionAllowed(action, top)
      && forall i :: 0 <= i < |rules| ==> NoNestedActions(rules[i], true) && Constructible(rules[i], false, legacy)
    case UnknownType => false
  }

  /** No nested rule has an action of its own. */
  ghost predicate NestedUnset(rule: Rule) {
    rule.Logical? ==> forall node :: InsideAny(node, rule.rules) && !node.UnknownType? ==> node.action == NO_ACTION
  }

  lemma {:induction false} NoNestedActionsIff(rule: Rule, nested: bool)
    ensures NoNestedActions(rule, nested) <==>
            (nested && !rule.UnknownType? ==> rule.action == NO_ACTION) && NestedUnset(rule)
    decreases rule
  {
    if rule.Logical? {
      forall i | 0 <= i < |rule.rules|
        ensures NoNestedActions(rule.rules[i], true) <==>
                forall node :: Inside(node, rule.rules[i]) && !node.UnknownType? ==> node.action == NO_ACTION
      {
        NoNestedActionsIff(rule.rules[i], true);
        InsideOf(rule.rules[i]);
      }
      InsideSome(rule.rules);
    }
  }

  lemma InsideOf(rule: Rule)
    ensures Inside(rule, rule)
    ensures forall node :: Inside(node, rule) <==> node == rule || (rule.Logical? && InsideAny(node, rule.rules))
  {
  }

  lemma InsideSome(rules: seq<Rule>)
    ensures forall node :: InsideAny(node, rules) <==> exists i :: 0 <= i < |rules| && Inside(node, rules[i])
  {
  }

  /** A node that can be built: a known type, sound items, sub-rules if logical, no filter retired from its mode. */
  predicate NodeBuilds(node: Rule, legacy: bool) {
    && !node.UnknownType?
    && (node.Logical? ==> node.rules != [])
    && (node.Default? ==>
          node.conditions.constructible && (!legacy ==> !node.conditions.ipAcceptAny && !node.conditions.acceptEmpty))
  }

  /** The action of a whole rule: it names its server, and does not reject with a reply. */
  predicate ActionBuilds(action: Action) {
    && (action.kind in {Unset, Route, Evaluate} ==> action.server != "")
    && (action.kind == Reject ==> action.reject != Reply)
  }

  ghost predicate AllBuild(rule: Rule, legacy: bool) {
    forall node :: Inside(node, rule) ==> NodeBuilds(node, legacy)
  }

  lemma AllBuildLogical(rule: Rule, legacy: bool)
    requires rule.Logical?
    ensures AllBuild(rule, legacy) <==>
            NodeBuilds(rule, legacy) && forall i :: 0 <= i < |rule.rules| ==> AllBuild(rule.rules[i], legacy)
  {
    InsideOf(rule);
    if AllBuild(rule, legacy) {
      forall i | 0 <= i < |rule.rules| ensures AllBuild(rule.rules[i], legacy) {
        forall node | Inside(node, rule.rules[i]) ensures NodeBuilds(node, legacy) {
          assert InsideAny(node, rule.rules);
        }
      }
    }
  }

  lemma {:induction false} NestedConstructibleIff(rule: Rule, legacy: bool)
    requires NoNestedActions(rule, true)
    ensures Constructible(rule, false, legacy) <==> AllBuild(rule, legacy)
    decreases rule
  {
    InsideOf(rule);
    if rule.Logical? {
      AllBuildLogical(rule, legacy);
      forall i | 0 <= i < |rule.rules|
        ensures Constructible(rule.rules[i], false, legacy) <==> AllBuild(rule.rules[i], legacy)
      {
        NestedConstructibleIff(rule.rules[i], legacy);
      }
    }
  }

  /** A rule can be built iff its own action can, every node in it can, and no nested one has an action. */
  lemma ConstructibleIff(rule: Rule, legacy: bool)
    ensures Constructible(rule, true, legacy) <==>
            !rule.UnknownType? && ActionBuilds(rule.action) && NestedUnset(rule) && AllBuild(rule, legacy)
  {
    InsideOf(rule);
    NoNestedActionsIff(rule, false);
    if rule.Logical? {
      AllBuildLogical(rule, legacy);
      if NestedUnset(rule) {
        forall i | 0 <= i < |rule.rules|
          ensures Constructible(rule.rules[i], false, legacy) <==> AllBuild(rule.rules[i], legacy)
        {
          NestedConstructibleIff(rule.rules[i], legacy);
        }
      }
    }
  }

  /** `validateEvaluateFakeIPRules` accepts: no top-level evaluate names a fakeip server. */
  ghost predicate NoEvaluateFakeIP(rules: seq<Rule>, fakeIP: set<string>) {
    forall i :: 0 <= i < |rules| && Evaluates(rules[i]) && rules[i].action.server != "" ==>
      rules[i].action.server !in fakeIP
  }

  /** Everything the configuration must satisfy to run in the given mode. */
  ghost predicate Accepted(rules: seq<Rule>, router: Option<RuleSets>, fakeIP: set<string>, legacy: bool) {
    && (forall i :: 0 <= i < |rules| ==> NoNestedActions(rules[i], false))
    && ResolveMode(router, rules, map[]).Ok? && ResolveMode(router, rules, map[]).value.0 == legacy
    && (!legacy ==> ReadyForNewMode(rules))
    && NoEvaluateFakeIP(rules, fakeIP)
    && (forall i :: 0 <= i < |rules| ==> Constructible(rules[i], true, legacy))
  }

  /** Rules accepted for the new mode filter on addresses only where they match a response, behind an evaluate. */
  lemma NewModeHasNoAddressFilters(
    rules: seq<Rule>, router: Option<RuleSets>, fakeIP: set<string>, i: nat, node: Rule)
    requires Accepted(rules, router, fakeIP, false) && i < |rules| && Inside(node, rules[i]) && node.Default?
    ensures !node.conditions.ipAcceptAny && !node.conditions.acceptEmpty
    ensures node.conditions.ipCidrs > 0 || node.conditions.ipIsPrivate || node.conditions.responseFields ==>
              node.conditions.matchResponse
    ensures node.conditions.matchResponse || node.action.kind == Respond ==>
              exists j :: 0 <= j < i && Evaluates(rules[j])
  {
    assert ReadyAt(rules, i);
    assert NodeValid(node);
    if NodeUsesResponse(node) { assert EvaluateBefore(rules, i); }
  }

  method CheckEvaluateFakeIP(rules: seq<Rule>, fakeIP: set<string>) returns (error: Option<Error>)
    ensures error.None? <==> NoEvaluateFakeIP(rules, fakeIP)
  {
    for i := 0 to |rules|
      invariant NoEvaluateFakeIP(rules[..i], fakeIP)
    {
      if ActionType(rules[i]).Evaluate? && rules[i].action.server != "" && rules[i].action.server in fakeIP {
        return Some(EvaluateFakeIP(i));
      }
      assert rules[..i + 1] == rules[..i] + [rules[i]];
    }
    assert rules[..|rules|] == rules;
    error := None;
  }

  /** `buildRules`: the mode, exactly when the configuration is accepted in it. */
  method BuildRules(rules: seq<Rule>, router: Option<RuleSets>, fakeIP: set<string>) returns (r: Checked<bool>)
    ensures forall legacy :: r == Ok(legacy) <==> Accepted(rules, router, fakeIP, legacy)
  {
    for i := 0 to |rules|
      invariant forall k :: 0 <= k < i ==> NoNestedActions(rules[k], false)
    {
      if !NoNestedActions(rules[i], false) { return Err(NestedAction); }
    }
    var mode := ResolveMode(router, rules, map[]);
    if mode.Err? { return Err(mode.error); }
    var legacy := mode.value.0;
    if !legacy {
      var error := ValidateForNewMode(rules);
      if error.Some? { return Err(error.value); }
    }
    var error := CheckEvaluateFakeIP(rules, fakeIP);
    if error.Some? { return Err(error.value); }
    for i := 0 to |rules|
      invariant forall k :: 0 <= k < i ==> Constructible(rules[k], true, legacy)
    {
      if !Constructible(rules[i], true, legacy) { return Err(BadRule); }
    }
    r := Ok(legacy);
  }
}
