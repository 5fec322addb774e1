/**
 Rule-set updates beside a starting and running DNS router. An update reads the router's phase, then the
 metadata of all rule sets one by one, and is committed later; the start reads the metadata in the same way
 and publishes its mode later. Every interleaving of updates of different rule sets is a sequence of steps.
 */
module DnsModeRuns {
  import opened Wrappers
  import opened DnsRules
  import opened DnsModeGuard

  datatype Stage = Idle | Resolved(legacy: bool) | Started(legacy: bool)

  /** An update on its way: it has read the phase, or it was accepted and is about to be committed. */
  datatype Update = Begun(metadata: RuleSetMetadata, phase: Phase) | Validated(metadata: RuleSetMetadata)

  /** `had` collects what the metadata of each rule set has been; each rule set loads one update at a time. */
  datatype State = State(
    table: RuleSets, had: map<string, set<RuleSetMetadata>>, stage: Stage, updates: map<string, Update>)

  /** `seen` is what an analysis has read. */
  datatype Step =
    | Begin(tag: string, metadata: RuleSetMetadata)
    | Validate(tag: string, seen: RuleSets)
    | Commit(tag: string)
    | Resolve(legacy: bool, seen: RuleSets)
    | Publish

  function PhaseOf(stage: Stage): Phase {
    if stage.Started? then Running(stage.legacy) else NotStarted
  }

  /** Read one by one, so each entry may be from another moment. */
  ghost predicate Readable(s: State, seen: RuleSets) {
    seen.Keys == s.table.Keys && forall tag :: tag in seen ==> tag in s.had && seen[tag] in s.had[tag]
  }

  ghost predicate Enabled(rules: seq<Rule>, fakeIP: set<string>, s: State, step: Step) {
    match step
    case Begin(tag, _) => tag in s.table && tag !in s.updates
    case Validate(tag, seen) => tag in s.updates && s.updates[tag].Begun? && Readable(s, seen)
    case Commit(tag) => tag in s.updates && s.updates[tag].Validated?
    case Resolve(legacy, seen) => s.stage.Idle? && Readable(s, seen) && Accepted(rules, Some(seen), fakeIP, legacy)
    case Publish => s.stage.Resolved?
  }

  ghost function Next(rules: seq<Rule>, fakeIP: set<string>, s: State, step: Step): State
    requires Enabled(rules, fakeIP, s, step)
  {
    match step
    case Begin(tag, m) => s.(updates := s.updates[tag := Begun(m, PhaseOf(s.stage))])
    case Validate(tag, seen) =>
      var m := s.updates[tag].metadata;
      if Accepts(rules, Some(seen), s.updates[tag].phase, tag, m)
      then s.(updates := s.updates[tag := Validated(m)])
      else s.(updates := s.updates - {tag})
    case Commit(tag) =>
      var m := s.updates[tag].metadata;
      s.(table := s.table[tag := m], updates := s.updates - {tag},
         had := s.had[tag := (if tag in s.had then s.had[tag] else {}) + {m}])
    case Resolve(legacy, _) => s.(stage := Resolved(legacy))
    case Publish => s.(stage := Started(s.stage.legacy))
  }

  ghost predicate Legal(rules: seq<Rule>, fakeIP: set<string>, s: State, steps: seq<Step>)
    decreases |steps|
  {
    steps == [] ||
    (Enabled(rules, fakeIP, s, steps[0]) && Legal(rules, fakeIP, Next(rules, fakeIP, s, steps[0]), steps[1..]))
  }

  ghost function Run(rules: seq<Rule>, fakeIP: set<string>, s: State, steps: seq<Step>): State
    requires Legal(rules, fakeIP, s, steps)
    decreases |steps|
  {
    if steps == [] then s else Run(rules, fakeIP, Next(rules, fakeIP, s, steps[0]), steps[1..])
  }

  /** Once the router runs, the committed metadata fit the mode it runs in. */
  ghost predicate Fits(rules: seq<Rule>, s: State) {
    s.stage.Started? ==> Sound(rules, s.table, s.stage.legacy)
  }

  ghost predicate AlwaysFits(rules: seq<Rule>, fakeIP: set<string>, s: State) {
    forall steps :: Legal(rules, fakeIP, s, steps) ==> Fits(rules, Run(rules, fakeIP, s, steps))
  }

  /** The router's metadata, with nothing on its way. */
  ghost function Quiet(table: RuleSets, stage: Stage): State {
    State(table, map tag | tag in table :: {table[tag]}, stage, map[])
  }

  // ---------- What the analysis says, of any metadata ----------

  ghost predicate NoStrategies(rules: seq<Rule>) {
    forall node :: InsideAny(node, rules) ==> !NodeStrategy(node)
  }

  /** The rules could run in the new mode, and nothing but rule sets could ask for legacy mode. */
  ghost predicate Versatile(rules: seq<Rule>) {
    ReadyForNewMode(rules) && NoStrategies(rules)
  }

  lemma DisabledWhen(rules: seq<Rule>, table: RuleSets)
    requires Resolvable(rules, table)
    ensures var flags := AllFlags(Some(table), rules, map[]);
            && flags.Ok? && (flags.value.disabled <==> DisabledByRule(rules) || Keepers(rules, table) != {})
            && (flags.value.neededFromStrategy <==> !NoStrategies(rules))
  {
    AllFlagsExact(Some(table), rules);
    DisabledIff(rules, table);
  }

  lemma VersatileResolves(rules: seq<Rule>, table: RuleSets)
    requires Versatile(rules) && Resolvable(rules, table)
    ensures var mode := ResolveMode(Some(table), rules, map[]);
            mode.Ok? && (mode.value.0 <==>
                           !DisabledByRule(rules) && Keepers(rules, table) == {} && AsksForLegacy(rules, table))
    ensures Sound(rules, table, false) <==>
            DisabledByRule(rules) || Keepers(rules, table) != {} || !AsksForLegacy(rules, table)
  {
    DisabledWhen(rules, table);
    AllFlagsExact(Some(table), rules);
    NeededIff(rules, table);
  }

  lemma NewModeIsVersatile(rules: seq<Rule>, table: RuleSets)
    requires Sound(rules, table, false)
    ensures Versatile(rules) && Resolvable(rules, table)
  {
    AllFlagsExact(Some(table), rules);
    forall node | InsideAny(node, rules) ensures !NodeStrategy(node) {
      NonLegacyHasNoStrategy(Some(table), rules, node);
    }
  }

  lemma LegacySoundIff(rules: seq<Rule>, table: RuleSets)
    requires Resolvable(rules, table)
    ensures Sound(rules, table, true) <==> !DisabledByRule(rules) && Keepers(rules, table) == {}
  {
    DisabledWhen(rules, table);
  }

  lemma AcceptsCommitted(rules: seq<Rule>, seen: RuleSets, phase: Phase, tag: string, m: RuleSetMetadata)
    requires rules != []
    ensures Accepts(rules, Some(seen), phase, tag, m) <==>
            var mode := ResolveMode(Some(seen[tag := m]), rules, map[]);
            match phase
            case Closing => true
            case NotStarted => mode.Ok? && (mode.value.0 || ReadyForNewMode(rules))
            case Running(legacy) => mode.Ok? && if legacy then mode.value.0 || !mode.value.1.disabled else !mode.value.0
  {
    AllFlagsCommit(seen, rules, map[tag := m]);
    assert seen + map[tag := m] == seen[tag := m];
  }

  /** An update that brings query types to a looked-up rule set is never accepted by a legacy router. */
  lemma LegacyAcceptsNoKeeper(rules: seq<Rule>, seen: RuleSets, tag: string, m: RuleSetMetadata)
    requires Accepts(rules, Some(seen), Running(true), tag, m) && Referenced(rules, tag)
    ensures !m.containsQueryType
  {
    AcceptsCommitted(rules, seen, Running(true), tag, m);
    AllFlagsExact(Some(seen[tag := m]), rules);
    DisabledWhen(rules, seen[tag := m]);
    assert m.containsQueryType ==> tag in Keepers(rules, seen[tag := m]);
  }

  /** Before the start it is accepted exactly when the rules are versatile. */
  lemma PrestartAcceptsKeeperIff(rules: seq<Rule>, seen: RuleSets, tag: string, m: RuleSetMetadata)
    requires Referenced(rules, tag) && m.containsQueryType && Resolvable(rules, seen[tag := m])
    ensures Accepts(rules, Some(seen), NotStarted, tag, m) <==> Versatile(rules)
  {
    AcceptsCommitted(rules, seen, NotStarted, tag, m);
    DisabledWhen(rules, seen[tag := m]);
    assert tag in Keepers(rules, seen[tag := m]);
  }

  // ---------- Runs ----------

  ghost predicate WellFormed(rules: seq<Rule>, s: State) {
    && Resolvable(rules, s.table) && s.had.Keys == s.table.Keys && s.updates.Keys <= s.table.Keys
    && (forall tag :: tag in s.table ==> s.table[tag] in s.had[tag])
    && (forall tag :: tag in s.updates && s.updates[tag].Begun? ==>
          s.updates[tag].phase == NotStarted || s.updates[tag].phase == PhaseOf(s.stage))
  }

  lemma StepStaysWellFormed(rules: seq<Rule>, fakeIP: set<string>, s: State, step: Step)
    requires WellFormed(rules, s) && Enabled(rules, fakeIP, s, step)
    ensures WellFormed(rules, Next(rules, fakeIP, s, step))
    ensures Next(rules, fakeIP, s, step).table.Keys == s.table.Keys
  {
  }

  lemma QuietIsWellFormed(rules: seq<Rule>, table: RuleSets, stage: Stage)
    requires Resolvable(rules, table)
    ensures WellFormed(rules, Quiet(table, stage))
  {
  }

  lemma Unroll(rules: seq<Rule>, fakeIP: set<string>, s: State, step: Step, rest: seq<Step>)
    requires Enabled(rules, fakeIP, s, step) && Legal(rules, fakeIP, Next(rules, fakeIP, s, step), rest)
    ensures Legal(rules, fakeIP, s, [step] + rest)
    ensures Run(rules, fakeIP, s, [step] + rest) == Run(rules, fakeIP, Next(rules, fakeIP, s, step), rest)
  {
    assert ([step] + rest)[1..] == rest;
  }

  lemma {:induction false} Join(rules: seq<Rule>, fakeIP: set<string>, s: State, a: seq<Step>, b: seq<Step>)
    requires Legal(rules, fakeIP, s, a) && Legal(rules, fakeIP, Run(rules, fakeIP, s, a), b)
    ensures Legal(rules, fakeIP, s, a + b)
    ensures Run(rules, fakeIP, s, a + b) == Run(rules, fakeIP, Run(rules, fakeIP, s, a), b)
    decreases |a|
  {
    if a == [] {
      assert a + b == b;
    } else {
      Join(rules, fakeIP, Next(rules, fakeIP, s, a[0]), a[1..], b);
      Unroll(rules, fakeIP, s, a[0], a[1..] + b);
      assert [a[0]] + (a[1..] + b) == a + b;
    }
  }

  // ---------- A running legacy router ----------

  /** The update cannot disable legacy mode: it brings no query types, or it will be refused. */
  ghost predicate Harmless(rules: seq<Rule>, tag: string, u: Update) {
    Referenced(rules, tag) && u.metadata.containsQueryType ==>
      u.Begun? && (u.phase.Running? || !Versatile(rules))
  }

  ghost predicate LegacyInv(rules: seq<Rule>, s: State) {
    && WellFormed(rules, s) && s.stage == Started(true) && Sound(rules, s.table, true)
    && forall tag :: tag in s.updates ==> Harmless(rules, tag, s.updates[tag])
  }

  lemma ValidatedIsHarmless(rules: seq<Rule>, fakeIP: set<string>, s: State, tag: string, seen: RuleSets)
    requires LegacyInv(rules, s) && Enabled(rules, fakeIP, s, Validate(tag, seen))
    requires Accepts(rules, Some(seen), s.updates[tag].phase, tag, s.updates[tag].metadata)
    ensures Harmless(rules, tag, Validated(s.updates[tag].metadata))
  {
    var u := s.updates[tag];
    if Referenced(rules, tag) && u.metadata.containsQueryType {
      assert Harmless(rules, tag, u);
      if u.phase == Running(true) {
        LegacyAcceptsNoKeeper(rules, seen, tag, u.metadata);
      } else {
        PrestartAcceptsKeeperIff(rules, seen, tag, u.metadata);
      }
    }
  }

  lemma CommitStaysLegacy(rules: seq<Rule>, table: RuleSets, tag: string, m: RuleSetMetadata)
    requires Resolvable(rules, table) && Sound(rules, table, true) && tag in table
    requires Referenced(rules, tag) ==> !m.containsQueryType
    ensures Sound(rules, table[tag := m], true)
  {
    LegacySoundIff(rules, table);
    LegacySoundIff(rules, table[tag := m]);
    KeepersAfter(rules, table, tag, m);
    assert tag !in Keepers(rules, table[tag := m]);
  }

  lemma StepKeepsLegacyInv(rules: seq<Rule>, fakeIP: set<string>, s: State, step: Step)
    requires LegacyInv(rules, s) && Enabled(rules, fakeIP, s, step)
    ensures LegacyInv(rules, Next(rules, fakeIP, s, step))
  {
    StepStaysWellFormed(rules, fakeIP, s, step);
    match step {
      case Validate(tag, seen) =>
        if Accepts(rules, Some(seen), s.updates[tag].phase, tag, s.updates[tag].metadata) {
          ValidatedIsHarmless(rules, fakeIP, s, tag, seen);
        }
      case Commit(tag) =>
        assert Harmless(rules, tag, s.updates[tag]);
        CommitStaysLegacy(rules, s.table, tag, s.updates[tag].metadata);
      case _ =>
    }
  }

  lemma {:induction false} LegacyRunsFit(rules: seq<Rule>, fakeIP: set<string>, s: State, steps: seq<Step>)
    requires LegacyInv(rules, s) && Legal(rules, fakeIP, s, steps)
    ensures LegacyInv(rules, Run(rules, fakeIP, s, steps))
    decreases |steps|
  {
    if steps != [] {
      StepKeepsLegacyInv(rules, fakeIP, s, steps[0]);
      LegacyRunsFit(rules, fakeIP, Next(rules, fakeIP, s, steps[0]), steps[1..]);
    }
  }

  /** Committing a keeper takes legacy mode away. */
  lemma KeeperDisablesLegacy(rules: seq<Rule>, fakeIP: set<string>, s: State, tag: string)
    requires WellFormed(rules, s) && s.stage == Started(true)
    requires tag in s.updates && s.updates[tag].Validated? && Referenced(rules, tag)
    requires s.updates[tag].metadata.containsQueryType
    ensures !AlwaysFits(rules, fakeIP, s)
  {
    var n := Next(rules, fakeIP, s, Commit(tag));
    StepStaysWellFormed(rules, fakeIP, s, Commit(tag));
    LegacySoundIff(rules, n.table);
    assert tag in Keepers(rules, n.table);
    Unroll(rules, fakeIP, s, Commit(tag), []);
    assert !Fits(rules, Run(rules, fakeIP, s, [Commit(tag)] + []));
  }

  lemma FirstStepCounts(rules: seq<Rule>, fakeIP: set<string>, s: State, step: Step)
    requires Enabled(rules, fakeIP, s, step) && !AlwaysFits(rules, fakeIP, Next(rules, fakeIP, s, step))
    ensures !AlwaysFits(rules, fakeIP, s)
  {
    var n := Next(rules, fakeIP, s, step);
    var rest :| Legal(rules, fakeIP, n, rest) && !Fits(rules, Run(rules, fakeIP, n, rest));
    Unroll(rules, fakeIP, s, step, rest);
    assert !Fits(rules, Run(rules, fakeIP, s, [step] + rest));
  }

  /**
   From any moment of a running legacy router: no interleaving of updates makes the metadata disable legacy
   mode, exactly when no update already on its way brings query types to a looked-up rule set after having
   been accepted, or having read the phase, before the start.
   */
  lemma LegacyFitsIff(rules: seq<Rule>, fakeIP: set<string>, s: State)
    requires WellFormed(rules, s) && s.stage == Started(true) && Sound(rules, s.table, true)
    ensures AlwaysFits(rules, fakeIP, s) <==> forall tag :: tag in s.updates ==> Harmless(rules, tag, s.updates[tag])
  {
    if forall tag :: tag in s.updates ==> Harmless(rules, tag, s.updates[tag]) {
      forall steps | Legal(rules, fakeIP, s, steps) ensures Fits(rules, Run(rules, fakeIP, s, steps)) {
        LegacyRunsFit(rules, fakeIP, s, steps);
      }
    } else {
      var tag :| tag in s.updates && !Harmless(rules, tag, s.updates[tag]);
      if s.updates[tag].Validated? {
        KeeperDisablesLegacy(rules, fakeIP, s, tag);
      } else {
        PrestartAcceptsKeeperIff(rules, s.table, tag, s.updates[tag].metadata);
        var step := Validate(tag, s.table);
        StepStaysWellFormed(rules, fakeIP, s, step);
        KeeperDisablesLegacy(rules, fakeIP, Next(rules, fakeIP, s, step), tag);
        FirstStepCounts(rules, fakeIP, s, step);
      }
    }
  }

  /** In particular no updates begun while it runs do, however they overlap. */
  lemma LegacyUpdatesFit(rules: seq<Rule>, fakeIP: set<string>, table: RuleSets)
    requires Sound(rules, table, true)
    ensures AlwaysFits(rules, fakeIP, Quiet(table, Started(true)))
  {
    AllFlagsExact(Some(table), rules);
    QuietIsWellFormed(rules, table, Started(true));
    LegacyFitsIff(rules, fakeIP, Quiet(table, Started(true)));
  }
  // ---------- Updates one after another ----------

  lemma RunCounts(rules: seq<Rule>, fakeIP: set<string>, s: State, steps: seq<Step>)
    requires Legal(rules, fakeIP, s, steps) && !AlwaysFits(rules, fakeIP, Run(rules, fakeIP, s, steps))
    ensures !AlwaysFits(rules, fakeIP, s)
  {
    var end := Run(rules, fakeIP, s, steps);
    var rest :| Legal(rules, fakeIP, end, rest) && !Fits(rules, Run(rules, fakeIP, end, rest));
    Join(rules, fakeIP, s, steps, rest);
    assert !Fits(rules, Run(rules, fakeIP, s, steps + rest));
  }

  /** The update is accepted against the metadata as they are. */
  ghost predicate AcceptedNow(rules: seq<Rule>, s: State, tag: string, m: RuleSetMetadata) {
    tag in s.table && tag !in s.updates && Accepts(rules, Some(s.table), PhaseOf(s.stage), tag, m)
  }

  lemma ValidateNow(rules: seq<Rule>, fakeIP: set<string>, s: State, tag: string, m: RuleSetMetadata)
    returns (steps: seq<Step>)
    requires WellFormed(rules, s) && AcceptedNow(rules, s, tag, m)
    ensures Legal(rules, fakeIP, s, steps)
    ensures var r := Run(rules, fakeIP, s, steps);
            WellFormed(rules, r) && r == s.(updates := s.updates[tag := Validated(m)])
  {
    var begin, validate := Begin(tag, m), Validate(tag, s.table);
    var s1 := Next(rules, fakeIP, s, begin);
    StepStaysWellFormed(rules, fakeIP, s, begin);
    StepStaysWellFormed(rules, fakeIP, s1, validate);
    Unroll(rules, fakeIP, s1, validate, []);
    Unroll(rules, fakeIP, s, begin, [validate] + []);
    steps := [begin] + ([validate] + []);
    assert Next(rules, fakeIP, s1, validate).updates == s.updates[tag := Validated(m)];
  }

  lemma UpdateNow(rules: seq<Rule>, fakeIP: set<string>, s: State, tag: string, m: RuleSetMetadata)
    returns (steps: seq<Step>)
    requires WellFormed(rules, s) && AcceptedNow(rules, s, tag, m)
    ensures Legal(rules, fakeIP, s, steps)
    ensures var r := Run(rules, fakeIP, s, steps);
            WellFormed(rules, r) && r.table == s.table[tag := m] && r.stage == s.stage && r.updates == s.updates
  {
    var first := ValidateNow(rules, fakeIP, s, tag, m);
    var s1 := Run(rules, fakeIP, s, first);
    StepStaysWellFormed(rules, fakeIP, s1, Commit(tag));
    Unroll(rules, fakeIP, s1, Commit(tag), []);
    Join(rules, fakeIP, s, first, [Commit(tag)] + []);
    steps := first + ([Commit(tag)] + []);
    assert s1.updates - {tag} == s.updates;
  }

  /**
   Updates of rule sets other than `keeper` are accepted: before the start, or while the keeper keeps the
   new mode.
   */
  ghost predicate Open(rules: seq<Rule>, s: State, keeper: string) {
    || (s.stage.Idle? && Versatile(rules))
    || (s.stage == Started(false) && Sound(rules, s.table, false) && keeper in Keepers(rules, s.table))
  }

  lemma OpenAccepts(rules: seq<Rule>, s: State, keeper: string, tag: string, m: RuleSetMetadata)
    requires WellFormed(rules, s) && Open(rules, s, keeper) && tag in s.table && (s.stage.Idle? || tag != keeper)
    ensures Accepts(rules, Some(s.table), PhaseOf(s.stage), tag, m)
    ensures s.stage == Started(false) ==>
              Sound(rules, s.table[tag := m], false) && keeper in Keepers(rules, s.table[tag := m])
  {
    if s.stage.Idle? {
      if rules != [] {
        AcceptsCommitted(rules, s.table, NotStarted, tag, m);
        VersatileResolves(rules, s.table[tag := m]);
      }
    } else {
      assert keeper in Keepers(rules, s.table[tag := m]);
      AcceptedAloneIff(rules, s.table, tag, m);
      StaysNewIff(rules, s.table, s.table[tag := m]);
    }
  }

  /** The metadata after some rule sets have become plain. */
  ghost function Plained(table: RuleSets, tags: set<string>): RuleSets {
    map tag | tag in table :: if tag in tags then PLAIN else table[tag]
  }

  lemma PlainedNothing(table: RuleSets)
    ensures Plained(table, {}) == table
  {
  }

  lemma PlainedStep(table: RuleSets, tags: set<string>, tag: string)
    requires tag in tags && tag in table
    ensures Plained(table[tag := PLAIN], tags - {tag}) == Plained(table, tags)
  {
  }

  lemma MakePlain(rules: seq<Rule>, fakeIP: set<string>, s: State, keeper: string, tag: string)
    returns (steps: seq<Step>)
    requires WellFormed(rules, s) && Open(rules, s, keeper) && s.updates == map[]
    requires tag in s.table && (s.stage.Idle? || tag != keeper)
    ensures Legal(rules, fakeIP, s, steps)
    ensures var r := Run(rules, fakeIP, s, steps);
            && WellFormed(rules, r) && Open(rules, r, keeper)
            && r.table == s.table[tag := PLAIN] && r.stage == s.stage && r.updates == map[]
  {
    OpenAccepts(rules, s, keeper, tag, PLAIN);
    steps := UpdateNow(rules, fakeIP, s, tag, PLAIN);
  }

  lemma {:induction false} Flatten(rules: seq<Rule>, fakeIP: set<string>, s: State, keeper: string, tags: set<string>)
    returns (steps: seq<Step>)
    requires WellFormed(rules, s) && Open(rules, s, keeper) && s.updates == map[]
    requires tags <= s.table.Keys && (s.stage.Idle? || keeper !in tags)
    ensures Legal(rules, fakeIP, s, steps)
    ensures var r := Run(rules, fakeIP, s, steps);
            && WellFormed(rules, r) && Open(rules, r, keeper)
            && r.table == Plained(s.table, tags) && r.stage == s.stage && r.updates == map[]
    decreases tags
  {
    if tags == {} {
      steps := [];
      PlainedNothing(s.table);
    } else {
      var tag :| tag in tags;
      var first := MakePlain(rules, fakeIP, s, keeper, tag);
      var s1 := Run(rules, fakeIP, s, first);
      var rest := Flatten(rules, fakeIP, s1, keeper, tags - {tag});
      Join(rules, fakeIP, s, first, rest);
      steps := first + rest;
      PlainedStep(s.table, tags, tag);
    }
  }

  ghost function LookedUp(rules: seq<Rule>, table: RuleSets): set<string> {
    set tag | tag in table && Referenced(rules, tag)
  }

  lemma AddressesAreLookedUp(rules: seq<Rule>, tag: string)
    requires ReferencedForAddresses(rules, tag)
    ensures Referenced(rules, tag)
  {
  }

  lemma LookedUpIsPresent(rules: seq<Rule>, table: RuleSets, tag: string)
    requires Resolvable(rules, table) && Referenced(rules, tag)
    ensures tag in table
  {
  }

  /** With everything but one rule set plain, that one decides. */
  lemma PlainedDecides(rules: seq<Rule>, table: RuleSets, tag: string)
    requires tag in table && Referenced(rules, tag)
    ensures var t := Plained(table, LookedUp(rules, table) - {tag});
            && Keepers(rules, t) == (if table[tag].containsQueryType then {tag} else {})
            && (AsksForLegacy(rules, t) <==> table[tag].containsIPCIDR && ReferencedForAddresses(rules, tag))
  {
    var t := Plained(table, LookedUp(rules, table) - {tag});
    assert t[tag] == table[tag];
    forall other | other in t && other != tag && Referenced(rules, other) ensures t[other] == PLAIN {
    }
    forall other | ReferencedForAddresses(rules, other) ensures Referenced(rules, other) {
      AddressesAreLookedUp(rules, other);
    }
  }

  // ---------- A running router in the new mode ----------

  /** No run of updates can take the new mode away. */
  ghost predicate KeepsNewMode(rules: seq<Rule>) {
    || DisabledByRule(rules)
    || (forall tag :: !ReferencedForAddresses(rules, tag))
    || (forall a, b :: Referenced(rules, a) && Referenced(rules, b) ==> a == b)
  }

  /** Asking for legacy mode, it keeps the new one itself. */
  ghost predicate SelfSufficient(rules: seq<Rule>, tag: string, m: RuleSetMetadata) {
    ReferencedForAddresses(rules, tag) && m.containsIPCIDR ==> m.containsQueryType
  }

  ghost predicate NewInv(rules: seq<Rule>, s: State) {
    && WellFormed(rules, s) && s.stage == Started(false) && Versatile(rules)
    && (forall tag :: tag in s.updates && s.updates[tag].Begun? ==> s.updates[tag].phase == Running(false))
    && (DisabledByRule(rules) ||
        (&& (forall tag :: tag in s.table ==> SelfSufficient(rules, tag, s.table[tag]))
         && forall tag :: tag in s.updates && s.updates[tag].Validated? ==>
              SelfSufficient(rules, tag, s.updates[tag].metadata)))
  }

  lemma SelfSufficientFits(rules: seq<Rule>, s: State)
    requires NewInv(rules, s)
    ensures Sound(rules, s.table, false)
  {
    VersatileResolves(rules, s.table);
    if !DisabledByRule(rules) && AsksForLegacy(rules, s.table) {
      var tag :| tag in s.table && s.table[tag].containsIPCIDR && ReferencedForAddresses(rules, tag);
      AddressesAreLookedUp(rules, tag);
      assert SelfSufficient(rules, tag, s.table[tag]);
      assert tag in Keepers(rules, s.table);
    }
  }

  lemma OnlyKeeper(rules: seq<Rule>, table: RuleSets, tag: string)
    requires KeepsNewMode(rules) && !DisabledByRule(rules) && tag in table
    requires Keepers(rules, table) != {} || !AsksForLegacy(rules, table)
    ensures SelfSufficient(rules, tag, table[tag])
  {
    if ReferencedForAddresses(rules, tag) && table[tag].containsIPCIDR {
      AddressesAreLookedUp(rules, tag);
      assert AsksForLegacy(rules, table);
      var keeper :| keeper in Keepers(rules, table);
      assert keeper == tag;
    }
  }

  lemma NewAcceptsSelfSufficient(rules: seq<Rule>, seen: RuleSets, tag: string, m: RuleSetMetadata)
    requires KeepsNewMode(rules) && !DisabledByRule(rules) && Versatile(rules) && Resolvable(rules, seen[tag := m])
    requires Accepts(rules, Some(seen), Running(false), tag, m)
    ensures SelfSufficient(rules, tag, m)
  {
    if rules != [] {
      AcceptsCommitted(rules, seen, Running(false), tag, m);
      VersatileResolves(rules, seen[tag := m]);
      OnlyKeeper(rules, seen[tag := m], tag);
    }
  }

  lemma StepKeepsNewInv(rules: seq<Rule>, fakeIP: set<string>, s: State, step: Step)
    requires KeepsNewMode(rules) && NewInv(rules, s) && Enabled(rules, fakeIP, s, step)
    ensures NewInv(rules, Next(rules, fakeIP, s, step))
  {
    StepStaysWellFormed(rules, fakeIP, s, step);
    if step.Validate? && !DisabledByRule(rules) {
      var u := s.updates[step.tag];
      if Accepts(rules, Some(step.seen), u.phase, step.tag, u.metadata) {
        NewAcceptsSelfSufficient(rules, step.seen, step.tag, u.metadata);
      }
    }
  }

  lemma {:induction false} NewRunsFit(rules: seq<Rule>, fakeIP: set<string>, s: State, steps: seq<Step>)
    requires KeepsNewMode(rules) && NewInv(rules, s) && Legal(rules, fakeIP, s, steps)
    ensures NewInv(rules, Run(rules, fakeIP, s, steps))
    decreases |steps|
  {
    if steps != [] {
      StepKeepsNewInv(rules, fakeIP, s, steps[0]);
      NewRunsFit(rules, fakeIP, Next(rules, fakeIP, s, steps[0]), steps[1..]);
    }
  }

  lemma QuietNewInv(rules: seq<Rule>, table: RuleSets)
    requires KeepsNewMode(rules) && Sound(rules, table, false)
    ensures NewInv(rules, Quiet(table, Started(false)))
  {
    NewModeIsVersatile(rules, table);
    QuietIsWellFormed(rules, table, Started(false));
    VersatileResolves(rules, table);
    if !DisabledByRule(rules) {
      forall tag | tag in table ensures SelfSufficient(rules, tag, table[tag]) {
        OnlyKeeper(rules, table, tag);
      }
    }
  }

  /** One keeper, no addresses: an update that adds some overlaps with one that lets the keeper go. */
  lemma OverlapBreaks(rules: seq<Rule>, fakeIP: set<string>, s: State, keeper: string, asker: string)
    requires WellFormed(rules, s) && s.stage == Started(false) && s.updates == map[] && Sound(rules, s.table, false)
    requires !DisabledByRule(rules) && Keepers(rules, s.table) == {keeper} && !AsksForLegacy(rules, s.table)
    requires asker != keeper && asker in s.table && ReferencedForAddresses(rules, asker)
    ensures !AlwaysFits(rules, fakeIP, s)
  {
    assert keeper in Keepers(rules, s.table);
    OpenAccepts(rules, s, keeper, asker, IP_CIDR);
    var first := ValidateNow(rules, fakeIP, s, asker, IP_CIDR);
    var s1 := Run(rules, fakeIP, s, first);
    AcceptedAloneIff(rules, s.table, keeper, PLAIN);
    assert !AsksForLegacy(rules, s.table[keeper := PLAIN]);
    var second := UpdateNow(rules, fakeIP, s1, keeper, PLAIN);
    var s2 := Run(rules, fakeIP, s1, second);
    CommittedAskerBreaks(rules, fakeIP, s, s2, keeper, asker);
    RunCounts(rules, fakeIP, s1, second);
    RunCounts(rules, fakeIP, s, first);
  }

  lemma CommittedAskerBreaks(
    rules: seq<Rule>, fakeIP: set<string>, before: State, s: State, keeper: string, asker: string)
    requires Sound(rules, before.table, false) && !DisabledByRule(rules) && Keepers(rules, before.table) == {keeper}
    requires asker != keeper && ReferencedForAddresses(rules, asker) && s.stage == Started(false)
    requires s.table == before.table[keeper := PLAIN] && asker in s.updates && s.updates[asker] == Validated(IP_CIDR)
    ensures !AlwaysFits(rules, fakeIP, s)
  {
    KeeperGone(rules, before.table, keeper, asker);
    StaysNewIff(rules, before.table, s.table[asker := IP_CIDR]);
    Unroll(rules, fakeIP, s, Commit(asker), []);
    assert !Fits(rules, Run(rules, fakeIP, s, [Commit(asker)] + []));
  }

  /** From any metadata, accepted updates lead there. */
  lemma TwoLookedUpBreak(rules: seq<Rule>, fakeIP: set<string>, table: RuleSets, keeper: string, asker: string)
    requires Sound(rules, table, false) && !DisabledByRule(rules)
    requires ReferencedForAddresses(rules, asker) && Referenced(rules, keeper) && keeper != asker
    ensures !AlwaysFits(rules, fakeIP, Quiet(table, Started(false)))
  {
    var s := Quiet(table, Started(false));
    NewModeIsVersatile(rules, table);
    QuietIsWellFormed(rules, table, Started(false));
    AddressesAreLookedUp(rules, asker);
    LookedUpIsPresent(rules, table, keeper);
    LookedUpIsPresent(rules, table, asker);
    assert keeper in Keepers(rules, table[keeper := QUERY_TYPE]);
    AcceptedAloneIff(rules, table, keeper, QUERY_TYPE);
    StaysNewIff(rules, table, table[keeper := QUERY_TYPE]);
    var first := UpdateNow(rules, fakeIP, s, keeper, QUERY_TYPE);
    var s1 := Run(rules, fakeIP, s, first);
    var tags := LookedUp(rules, s1.table) - {keeper};
    var second := Flatten(rules, fakeIP, s1, keeper, tags);
    var s2 := Run(rules, fakeIP, s1, second);
    PlainedDecides(rules, s1.table, keeper);
    OverlapBreaks(rules, fakeIP, s2, keeper, asker);
    RunCounts(rules, fakeIP, s1, second);
    RunCounts(rules, fakeIP, s, first);
  }

  /**
   Exactly when no interleaving of updates begun while a router runs in the new mode leaves it with rules
   that need legacy mode. It depends on the rules alone.
   */
  lemma NewModeFitsIff(rules: seq<Rule>, fakeIP: set<string>, table: RuleSets)
    requires Sound(rules, table, false)
    ensures AlwaysFits(rules, fakeIP, Quiet(table, Started(false))) <==> KeepsNewMode(rules)
  {
    var s := Quiet(table, Started(false));
    if KeepsNewMode(rules) {
      QuietNewInv(rules, table);
      forall steps | Legal(rules, fakeIP, s, steps) ensures Fits(rules, Run(rules, fakeIP, s, steps)) {
        NewRunsFit(rules, fakeIP, s, steps);
        SelfSufficientFits(rules, Run(rules, fakeIP, s, steps));
      }
    } else {
      var asker :| ReferencedForAddresses(rules, asker);
      var a, b :| Referenced(rules, a) && Referenced(rules, b) && a != b;
      TwoLookedUpBreak(rules, fakeIP, table, if a == asker then b else a, asker);
    }
  }

  /** So a single batch against one table, which may be safe where runs are not, is safe wherever runs are. */
  lemma RunsSafeMeansBatchesSafe(rules: seq<Rule>, fakeIP: set<string>, table: RuleSets)
    requires Sound(rules, table, false) && AlwaysFits(rules, fakeIP, Quiet(table, Started(false)))
    ensures BatchProof(rules, table)
  {
    NewModeFitsIff(rules, fakeIP, table);
    if keeper :| keeper in Keepers(rules, table) {
      forall tag | ReferencedForAddresses(rules, tag) ensures Referenced(rules, tag) {
        AddressesAreLookedUp(rules, tag);
      }
      if !DisabledByRule(rules) && exists tag :: ReferencedForAddresses(rules, tag) {
        assert Keepers(rules, table) == {keeper};
      }
    }
  }

  // ---------- From before the start ----------

  /** The parts of `Accepted` that do not depend on the metadata. */
  ghost predicate Buildable(rules: seq<Rule>, fakeIP: set<string>, legacy: bool) {
    && NoEvaluateFakeIP(rules, fakeIP)
    && forall i :: 0 <= i < |rules| ==> NoNestedActions(rules[i], false) && Constructible(rules[i], true, legacy)
  }

  lemma {:induction false} ConstructibleInLegacy(rule: Rule, top: bool)
    requires Constructible(rule, top, false)
    ensures Constructible(rule, top, true)
    decreases rule
  {
    if rule.Logical? {
      forall i | 0 <= i < |rule.rules| ensures Constructible(rule.rules[i], false, true) {
        ConstructibleInLegacy(rule.rules[i], false);
      }
    }
  }

  lemma AcceptedIsBuildable(rules: seq<Rule>, table: RuleSets, fakeIP: set<string>, legacy: bool)
    requires Accepted(rules, Some(table), fakeIP, legacy)
    ensures Buildable(rules, fakeIP, true)
  {
    if !legacy {
      forall i | 0 <= i < |rules| ensures Constructible(rules[i], true, true) {
        ConstructibleInLegacy(rules[i], true);
      }
    }
  }

  /** A start in legacy mode between the validation of an update with query types and its commit. */
  lemma CrossingBreaks(rules: seq<Rule>, fakeIP: set<string>, s: State, tag: string)
    requires WellFormed(rules, s) && s.stage.Idle? && s.updates == map[] && Versatile(rules)
    requires Accepted(rules, Some(s.table), fakeIP, true) && Referenced(rules, tag)
    ensures !AlwaysFits(rules, fakeIP, s)
  {
    LookedUpIsPresent(rules, s.table, tag);
    PrestartAcceptsKeeperIff(rules, s.table, tag, QUERY_TYPE);
    var first := ValidateNow(rules, fakeIP, s, tag, QUERY_TYPE);
    var s1 := Run(rules, fakeIP, s, first);
    var s2 := Next(rules, fakeIP, s1, Resolve(true, s1.table));
    StepStaysWellFormed(rules, fakeIP, s1, Resolve(true, s1.table));
    StepStaysWellFormed(rules, fakeIP, s2, Publish);
    KeeperDisablesLegacy(rules, fakeIP, Next(rules, fakeIP, s2, Publish), tag);
    FirstStepCounts(rules, fakeIP, s2, Publish);
    FirstStepCounts(rules, fakeIP, s1, Resolve(true, s1.table));
    RunCounts(rules, fakeIP, s, first);
  }

  /** From any metadata, accepted updates lead to such a start. */
  lemma VersatileBreaks(rules: seq<Rule>, fakeIP: set<string>, table: RuleSets, asker: string)
    requires Resolvable(rules, table) && Versatile(rules) && Buildable(rules, fakeIP, true)
    requires !DisabledByRule(rules) && ReferencedForAddresses(rules, asker)
    ensures !AlwaysFits(rules, fakeIP, Quiet(table, Idle))
  {
    var s := Quiet(table, Idle);
    QuietIsWellFormed(rules, table, Idle);
    AddressesAreLookedUp(rules, asker);
    LookedUpIsPresent(rules, table, asker);
    OpenAccepts(rules, s, asker, asker, IP_CIDR);
    var first := UpdateNow(rules, fakeIP, s, asker, IP_CIDR);
    var s1 := Run(rules, fakeIP, s, first);
    var second := Flatten(rules, fakeIP, s1, asker, LookedUp(rules, s1.table) - {asker});
    var s2 := Run(rules, fakeIP, s1, second);
    PlainedDecides(rules, s1.table, asker);
    VersatileResolves(rules, s2.table);
    CrossingBreaks(rules, fakeIP, s2, asker);
    RunCounts(rules, fakeIP, s1, second);
    RunCounts(rules, fakeIP, s, first);
  }

  /** Versatile rules that never ask for legacy mode, or always disable it, start in the new mode and stay there. */
  ghost predicate SettledInv(rules: seq<Rule>, s: State) {
    WellFormed(rules, s) && (!s.stage.Idle? ==> !s.stage.legacy)
  }

  ghost predicate Settled(rules: seq<Rule>) {
    Versatile(rules) && (DisabledByRule(rules) || forall tag :: !ReferencedForAddresses(rules, tag))
  }

  lemma StepKeepsSettled(rules: seq<Rule>, fakeIP: set<string>, s: State, step: Step)
    requires Settled(rules) && SettledInv(rules, s) && Enabled(rules, fakeIP, s, step)
    ensures SettledInv(rules, Next(rules, fakeIP, s, step))
  {
    StepStaysWellFormed(rules, fakeIP, s, step);
    if step.Resolve? { VersatileResolves(rules, step.seen); }
  }

  /** Other rules can only start in legacy mode, and no update with query types is ever accepted. */
  ghost predicate LegacyOnlyInv(rules: seq<Rule>, s: State) {
    && WellFormed(rules, s)
    && (forall tag :: tag in s.updates && s.updates[tag].Validated? && Referenced(rules, tag) ==>
          !s.updates[tag].metadata.containsQueryType)
    && (forall tag :: tag in Keepers(rules, s.table) ==> AlwaysKept(s, tag))
    && (!s.stage.Idle? ==> s.stage.legacy && !DisabledByRule(rules) && Keepers(rules, s.table) == {})
  }

  ghost predicate AlwaysKept(s: State, tag: string) {
    tag in s.had && forall m :: m in s.had[tag] ==> m.containsQueryType
  }

  lemma LegacyOnlyAccepts(rules: seq<Rule>, fakeIP: set<string>, s: State, tag: string, seen: RuleSets)
    requires !Versatile(rules) && LegacyOnlyInv(rules, s) && Enabled(rules, fakeIP, s, Validate(tag, seen))
    requires Accepts(rules, Some(seen), s.updates[tag].phase, tag, s.updates[tag].metadata) && Referenced(rules, tag)
    ensures !s.updates[tag].metadata.containsQueryType
  {
    var u := s.updates[tag];
    if u.metadata.containsQueryType {
      if u.phase == NotStarted {
        PrestartAcceptsKeeperIff(rules, seen, tag, u.metadata);
      } else {
        LegacyAcceptsNoKeeper(rules, seen, tag, u.metadata);
      }
    }
  }

  lemma LegacyOnlyStarts(rules: seq<Rule>, fakeIP: set<string>, s: State, legacy: bool, seen: RuleSets)
    requires !Versatile(rules) && LegacyOnlyInv(rules, s) && Enabled(rules, fakeIP, s, Resolve(legacy, seen))
    ensures legacy && !DisabledByRule(rules) && Keepers(rules, s.table) == {}
  {
    AcceptedIsSound(rules, seen, fakeIP, legacy);
    if !legacy { NewModeIsVersatile(rules, seen); }
    LegacySoundIff(rules, seen);
    forall tag | tag in Keepers(rules, s.table) ensures tag in Keepers(rules, seen) {
      assert AlwaysKept(s, tag);
    }
  }

  lemma LegacyOnlyCommits(rules: seq<Rule>, fakeIP: set<string>, s: State, tag: string)
    requires LegacyOnlyInv(rules, s) && Enabled(rules, fakeIP, s, Commit(tag))
    ensures LegacyOnlyInv(rules, Next(rules, fakeIP, s, Commit(tag)))
  {
    var n := Next(rules, fakeIP, s, Commit(tag));
    StepStaysWellFormed(rules, fakeIP, s, Commit(tag));
    forall k | k in Keepers(rules, n.table) ensures k in Keepers(rules, s.table) && AlwaysKept(n, k) {
      assert k != tag;
      assert AlwaysKept(s, k);
    }
  }

  lemma StepKeepsLegacyOnly(rules: seq<Rule>, fakeIP: set<string>, s: State, step: Step)
    requires !Versatile(rules) && LegacyOnlyInv(rules, s) && Enabled(rules, fakeIP, s, step)
    ensures LegacyOnlyInv(rules, Next(rules, fakeIP, s, step))
  {
    StepStaysWellFormed(rules, fakeIP, s, step);
    match step {
      case Validate(tag, seen) =>
        if Accepts(rules, Some(seen), s.updates[tag].phase, tag, s.updates[tag].metadata) && Referenced(rules, tag) {
          LegacyOnlyAccepts(rules, fakeIP, s, tag, seen);
        }
      case Commit(tag) => LegacyOnlyCommits(rules, fakeIP, s, tag);
      case Resolve(legacy, seen) => LegacyOnlyStarts(rules, fakeIP, s, legacy, seen);
      case _ =>
    }
    forall tag | tag in Keepers(rules, s.table) && !step.Commit? ensures AlwaysKept(Next(rules, fakeIP, s, step), tag) {
      assert AlwaysKept(s, tag);
    }
  }

  /** What a run from before the start keeps, whatever the rules. */
  ghost predicate StartInv(rules: seq<Rule>, fakeIP: set<string>, s: State) {
    if !Buildable(rules, fakeIP, true) then s.stage.Idle?
    else if Versatile(rules) then SettledInv(rules, s)
    else LegacyOnlyInv(rules, s)
  }

  lemma {:induction false} StartRunsFit(rules: seq<Rule>, fakeIP: set<string>, s: State, steps: seq<Step>)
    requires Settled(rules) || !Versatile(rules) || !Buildable(rules, fakeIP, true)
    requires StartInv(rules, fakeIP, s) && Legal(rules, fakeIP, s, steps)
    ensures Fits(rules, Run(rules, fakeIP, s, steps))
    decreases |steps|
  {
    if steps != [] {
      if !Buildable(rules, fakeIP, true) {
        if steps[0].Resolve? { AcceptedIsBuildable(rules, steps[0].seen, fakeIP, steps[0].legacy); }
      } else if Versatile(rules) {
        StepKeepsSettled(rules, fakeIP, s, steps[0]);
      } else {
        StepKeepsLegacyOnly(rules, fakeIP, s, steps[0]);
      }
      StartRunsFit(rules, fakeIP, Next(rules, fakeIP, s, steps[0]), steps[1..]);
    } else if s.stage.Started? {
      if Versatile(rules) { VersatileResolves(rules, s.table); } else { LegacySoundIff(rules, s.table); }
    }
  }

  /**
   Exactly when no interleaving of updates with the start, in either mode, leaves the running router with
   metadata that do not fit the mode it started in: a rule disables legacy mode by itself, no rule set can
   ask for it, or the rules cannot run in the new mode; or they cannot be built at all.
   */
  lemma StartFitsIff(rules: seq<Rule>, fakeIP: set<string>, table: RuleSets)
    requires Resolvable(rules, table)
    ensures AlwaysFits(rules, fakeIP, Quiet(table, Idle)) <==>
            || DisabledByRule(rules)
            || (forall tag :: !ReferencedForAddresses(rules, tag))
            || !Versatile(rules)
            || !Buildable(rules, fakeIP, true)
  {
    var s := Quiet(table, Idle);
    QuietIsWellFormed(rules, table, Idle);
    if Settled(rules) || !Versatile(rules) || !Buildable(rules, fakeIP, true) {
      forall steps | Legal(rules, fakeIP, s, steps) ensures Fits(rules, Run(rules, fakeIP, s, steps)) {
        StartRunsFit(rules, fakeIP, s, steps);
      }
    } else {
      var asker :| ReferencedForAddresses(rules, asker);
      VersatileBreaks(rules, fakeIP, table, asker);
    }
  }

  /**
   One rule on one rule set with addresses: query types accepted before the start break the legacy router
   after it.
   */
  lemma UpdateAcrossStartBreaksLegacy(rules: seq<Rule>, table: RuleSets, tag: string)
    requires rules == [RuleSetRule(tag)] && table == map[tag := IP_CIDR]
    ensures Accepted(rules, Some(table), {}, true) && !AlwaysFits(rules, {}, Quiet(table, Idle))
  {
    OneRuleFlags(table, map[], tag);
    assert rules[1..] == [];
    assert AllFlags(Some(table), rules[1..], map[]) == Ok(NO_FLAGS);
    assert forall node :: InsideAny(node, rules) <==> node == RuleSetRule(tag) by {
      assert Inside(RuleSetRule(tag), rules[0]);
    }
    assert ReadyAt(rules, 0);
    assert Referenced(rules, tag);
    AllFlagsExact(Some(table), rules);
    QuietIsWellFormed(rules, table, Idle);
    CrossingBreaks(rules, {}, Quiet(table, Idle), tag);
  }
}
