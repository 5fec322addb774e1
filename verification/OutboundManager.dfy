/** The outbound manager before its start: creations, removals, and the choice of a default outbound. */
module OutboundManager {
  import opened Wrappers
  import opened ComponentIndex
  import D = DependencyStart

  datatype State = State(
    outbounds: seq<Item>, byTag: map<string, Item>, dependBy: Dependents, default: Option<Item>)

  datatype Outcome =
    | Done
    | Invalid
    | DependedOn(dependents: seq<string>)
    | DefaultNotFound
    | FallbackFailed
    | PanicIndex

  const EMPTY := State([], map[], map[], None)

  /** `Create` of an outbound that the registry has built. */
  function Created(s: State, defaultTag: string, x: Item): (State, Outcome) {
    if x.tag == "" then (s, Invalid)
    else
      var existing := if x.tag in s.byTag then IndexOf(s.outbounds, s.byTag[x.tag]) else 0;
      if existing == -1 then (s, PanicIndex)
      else
        var kept := if x.tag in s.byTag then Without(s.outbounds, existing) else s.outbounds;
        (State(kept + [x], s.byTag[x.tag := x], Link(s.dependBy, x.dependencies, x.tag),
               if x.tag == defaultTag || (defaultTag == "" && s.default.None?) then Some(x) else s.default),
         Done)
  }

  /** `Remove`; a refused removal has already dropped the outbound from the list and the table. */
  function Removed(s: State, tag: string): (State, Outcome) {
    if tag !in s.byTag then (s, Invalid)
    else
      var x := s.byTag[tag];
      var i := IndexOf(s.outbounds, x);
      if i == -1 then (s.(byTag := s.byTag - {tag}), PanicIndex)
      else
        var rest := Without(s.outbounds, i);
        var next := if s.default != Some(x) then s.default else if rest == [] then None else Some(rest[0]);
        var dropped := State(rest, s.byTag - {tag}, s.dependBy, next);
        if Get(s.dependBy, tag) != [] then (dropped, DependedOn(Get(s.dependBy, tag)))
        else (dropped.(dependBy := Unlink(s.dependBy, x.dependencies, tag)), Done)
  }

  /** The first part of `Start`: an endpoint or a built-in outbound stands in for a missing default. */
  function Prepared(
    s: State, defaultTag: string, endpoints: map<string, Item>, builtIn: Option<Item>): (State, Outcome)
  {
    if defaultTag != "" && s.default.None? then
      if defaultTag !in endpoints then (s, DefaultNotFound) else (s.(default := Some(endpoints[defaultTag])), Done)
    else if s.default.None? then
      if builtIn.None? then (s, FallbackFailed)
      else
        var x := builtIn.value;
        (s.(outbounds := s.outbounds + [x], byTag := s.byTag[x.tag := x], default := Some(x)), Done)
    else (s, Done)
  }

  class Manager {
    const defaultTag: string
    var outbounds: seq<Item>
    var outboundByTag: map<string, Item>
    var dependByTag: Dependents
    var defaultOutbound: Option<Item>

    ghost function View(): State
      reads this
    {
      State(outbounds, outboundByTag, dependByTag, defaultOutbound)
    }

    constructor (defaultTag: string)
      ensures this.defaultTag == defaultTag && View() == EMPTY
    {
      this.defaultTag := defaultTag;
      outbounds, outboundByTag, dependByTag, defaultOutbound := [], map[], map[], None;
    }

    method Create(x: Item) returns (outcome: Outcome)
      modifies this
      ensures (View(), outcome) == Created(old(View()), defaultTag, x)
    {
      if x.tag == "" { return Invalid; }
      if x.tag in outboundByTag {
        var existsIndex := IndexOf(outbounds, outboundByTag[x.tag]);
        if existsIndex == -1 { return PanicIndex; }
        outbounds := Without(outbounds, existsIndex);
      }
      outbounds := outbounds + [x];
      outboundByTag := outboundByTag[x.tag := x];
      dependByTag := AddDependents(dependByTag, x.dependencies, x.tag);
      if x.tag == defaultTag || (defaultTag == "" && defaultOutbound.None?) {
        defaultOutbound := Some(x);
      }
      outcome := Done;
    }

    method Remove(tag: string) returns (outcome: Outcome)
      modifies this
      ensures (View(), outcome) == Removed(old(View()), tag)
    {
      if tag !in outboundByTag { return Invalid; }
      var outbound := outboundByTag[tag];
      outboundByTag := outboundByTag - {tag};
      var index := IndexOf(outbounds, outbound);
      if index == -1 { return PanicIndex; }
      outbounds := Without(outbounds, index);
      if defaultOutbound == Some(outbound) {
        if |outbounds| > 0 { defaultOutbound := Some(outbounds[0]); } else { defaultOutbound := None; }
      }
      var dependBy := Get(dependByTag, tag);
      if |dependBy| > 0 { return DependedOn(dependBy); }
      dependByTag := DropDependents(dependByTag, outbound.dependencies, tag);
      outcome := Done;
    }

    method PrepareStart(endpoints: map<string, Item>, builtIn: Option<Item>) returns (outcome: Outcome)
      modifies this
      ensures (View(), outcome) == Prepared(old(View()), defaultTag, endpoints, builtIn)
    {
      if defaultTag != "" && defaultOutbound.None? {
        if defaultTag !in endpoints { return DefaultNotFound; }
        defaultOutbound := Some(endpoints[defaultTag]);
      }
      if defaultOutbound.None? {
        if builtIn.None? { return FallbackFailed; }
        outbounds := outbounds + [builtIn.value];
        outboundByTag := outboundByTag[builtIn.value.tag := builtIn.value];
        defaultOutbound := builtIn;
      }
      outcome := Done;
    }

    method Start(
      endpoints: seq<Item>, endpointByTag: map<string, Item>, builtIn: Option<Item>, failing: set<nat>)
      returns (outcome: StartOutcome, order: seq<D.Component>)
      requires Listed(View(), defaultTag) && Consistent(endpoints, endpointByTag)
      requires outboundByTag.Keys !! endpointByTag.Keys
      modifies this
      ensures View() == Prepared(old(View()), defaultTag, endpointByTag, builtIn).0
      ensures StartExact(old(View()), defaultTag, endpoints, endpointByTag, builtIn, failing, outcome, order)
    {
      ghost var s := View();
      var prepared := PrepareStart(endpointByTag, builtIn);
      if !prepared.Done? { return NotPrepared(prepared), []; }
      var components, result := AsComponents(outbounds + endpoints, failing), D.Started;
      result, order := D.StartAll(components, AsTable(outboundByTag, failing));
      StartEnds(s, defaultTag, endpoints, endpointByTag, builtIn, failing, result, order);
      outcome := Ran(result);
    }
  }

  // ---------- What clean runs keep ----------

  ghost predicate Inv(s: State, defaultTag: string) {
    && Consistent(s.outbounds, s.byTag)
    && Exact(s.outbounds, s.dependBy)
    && (s.default.Some? ==> s.default.value in s.outbounds)
    && (defaultTag == "" && s.default.None? ==> s.outbounds == [])
    && (defaultTag in s.byTag ==> s.default == Some(s.byTag[defaultTag]))
    && (defaultTag == "" && s.outbounds != [] ==> s.default == Some(s.outbounds[0]))
  }

  datatype Step = Create(outbound: Item) | Remove(tag: string)

  function Next(s: State, defaultTag: string, step: Step): (State, Outcome) {
    match step
    case Create(x) => Created(s, defaultTag, x)
    case Remove(tag) => Removed(s, tag)
  }

  /** A creation under an unused tag, or a removal that succeeds and loses no dependent. */
  ghost predicate Clean(s: State, defaultTag: string, step: Step) {
    match step
    case Create(x) => x.tag != "" && x.tag !in s.byTag
    case Remove(tag) =>
      && Removed(s, tag).1.Done?
      && tag in s.byTag && IndexOf(s.outbounds, s.byTag[tag]) >= 0
      && SafeToRemove(s.outbounds, IndexOf(s.outbounds, s.byTag[tag]))
  }

  lemma CreateKeepsInv(s: State, defaultTag: string, x: Item)
    requires Inv(s, defaultTag) && x.tag != "" && x.tag !in s.byTag
    ensures Inv(Created(s, defaultTag, x).0, defaultTag) && Created(s, defaultTag, x).1.Done?
  {
    ConsistentAppend(s.outbounds, s.byTag, x);
    LinkKeepsExact(s.outbounds, s.dependBy, x);
    assert x == (s.outbounds + [x])[|s.outbounds|];
  }

  /** What a removal that gets past the table leaves. */
  lemma RemovedParts(s: State, tag: string) returns (i: nat)
    requires Consistent(s.outbounds, s.byTag) && tag in s.byTag
    ensures i < |s.outbounds| && i == IndexOf(s.outbounds, s.byTag[tag]) && s.outbounds[i] == s.byTag[tag]
    ensures var r := Removed(s, tag).0;
            && r.outbounds == Without(s.outbounds, i) && r.byTag == s.byTag - {tag}
            && r.default == (if s.default != Some(s.byTag[tag]) then s.default
                             else if r.outbounds == [] then None else Some(r.outbounds[0]))
            && Consistent(r.outbounds, r.byTag)
            && forall x :: x in r.outbounds <==> x in s.outbounds && x != s.byTag[tag]
    ensures Removed(s, tag).1.Done? <==> Get(s.dependBy, tag) == []
    ensures Removed(s, tag).1.Done? ==>
              Removed(s, tag).0.dependBy == Unlink(s.dependBy, s.byTag[tag].dependencies, tag)
  {
    i := IndexOf(s.outbounds, s.byTag[tag]);
    ConsistentRemove(s.outbounds, s.byTag, i);
  }

  lemma RemoveKeepsInv(s: State, defaultTag: string, tag: string)
    requires Inv(s, defaultTag) && Clean(s, defaultTag, Remove(tag))
    ensures Inv(Removed(s, tag).0, defaultTag)
  {
    var i := RemovedParts(s, tag);
    UnlinkExactIff(s.outbounds, i, s.dependBy);
    var r := Removed(s, tag).0;
    assert r.outbounds != [] ==> r.outbounds[0] in r.outbounds;
  }

  ghost function Run(s: State, defaultTag: string, steps: seq<Step>): State {
    if steps == [] then s
    else Next(Run(s, defaultTag, steps[..|steps| - 1]), defaultTag, steps[|steps| - 1]).0
  }

  ghost predicate AllClean(s: State, defaultTag: string, steps: seq<Step>) {
    steps == [] ||
    (&& AllClean(s, defaultTag, steps[..|steps| - 1])
     && Clean(Run(s, defaultTag, steps[..|steps| - 1]), defaultTag, steps[|steps| - 1]))
  }

  /** Any run of clean steps from the empty manager keeps list, table, reverse index and default in agreement. */
  lemma {:induction false} RunKeepsInv(defaultTag: string, steps: seq<Step>)
    requires AllClean(EMPTY, defaultTag, steps)
    ensures Inv(Run(EMPTY, defaultTag, steps), defaultTag)
    ensures ExactSets(Run(EMPTY, defaultTag, steps).outbounds, Run(EMPTY, defaultTag, steps).dependBy)
  {
    if steps != [] {
      RunKeepsInv(defaultTag, steps[..|steps| - 1]);
      var s := Run(EMPTY, defaultTag, steps[..|steps| - 1]);
      match steps[|steps| - 1]
      case Create(x) => CreateKeepsInv(s, defaultTag, x);
      case Remove(tag) => RemoveKeepsInv(s, defaultTag, tag);
    }
    ExactIsExactSets(Run(EMPTY, defaultTag, steps).outbounds, Run(EMPTY, defaultTag, steps).dependBy);
  }

  // ---------- What every run keeps ----------

  /** List and table agree, and the default is missing only where a fallback is due. */
  ghost predicate Listed(s: State, defaultTag: string) {
    && Consistent(s.outbounds, s.byTag)
    && (defaultTag == "" && s.default.None? ==> s.outbounds == [])
  }

  lemma CreateKeepsListed(s: State, defaultTag: string, x: Item)
    requires Listed(s, defaultTag)
    ensures Listed(Created(s, defaultTag, x).0, defaultTag) && !Created(s, defaultTag, x).1.PanicIndex?
  {
    if x.tag in s.byTag {
      ConsistentReplace(s.outbounds, s.byTag, IndexOf(s.outbounds, s.byTag[x.tag]), x);
    } else {
      ConsistentAppend(s.outbounds, s.byTag, x);
    }
  }

  lemma RemoveKeepsListed(s: State, defaultTag: string, tag: string)
    requires Listed(s, defaultTag)
    ensures Listed(Removed(s, tag).0, defaultTag) && !Removed(s, tag).1.PanicIndex?
  {
    if tag in s.byTag { var i := RemovedParts(s, tag); }
  }

  /**
   Any run, with live tags created again, unknown tags removed and removals refused half-way, keeps list and
   table in agreement, so that neither operation ever misses an outbound it found in the table.
   */
  lemma {:induction false} AnyRunIsListed(defaultTag: string, steps: seq<Step>)
    ensures Listed(Run(EMPTY, defaultTag, steps), defaultTag)
    ensures forall step :: !Next(Run(EMPTY, defaultTag, steps), defaultTag, step).1.PanicIndex?
  {
    if steps != [] {
      var s := Run(EMPTY, defaultTag, steps[..|steps| - 1]);
      AnyRunIsListed(defaultTag, steps[..|steps| - 1]);
      match steps[|steps| - 1] {
        case Create(x) => CreateKeepsListed(s, defaultTag, x);
        case Remove(tag) => RemoveKeepsListed(s, defaultTag, tag);
      }
    }
    var end := Run(EMPTY, defaultTag, steps);
    forall step ensures !Next(end, defaultTag, step).1.PanicIndex? {
      match step
      case Create(x) => CreateKeepsListed(end, defaultTag, x);
      case Remove(tag) => RemoveKeepsListed(end, defaultTag, tag);
    }
  }

  // ---------- What the reverse index is for ----------

  ghost predicate Needed(s: State, tag: string) {
    exists t :: LiveDependent(s.outbounds, t, tag)
  }

  /** A removal succeeds exactly when the tag is live and nobody depends on it; a refusal names those who do. */
  lemma RemoveSucceedsIff(s: State, defaultTag: string, tag: string)
    requires Inv(s, defaultTag)
    ensures Removed(s, tag).1.Done? <==> tag in s.byTag && !Needed(s, tag)
    ensures Removed(s, tag).1 == Invalid <==> tag !in s.byTag
    ensures Removed(s, tag).1.DependedOn? ==>
              forall t :: t in Removed(s, tag).1.dependents <==> LiveDependent(s.outbounds, t, tag)
  {
    ExactIsExactSets(s.outbounds, s.dependBy);
    if Get(s.dependBy, tag) != [] {
      assert Get(s.dependBy, tag)[0] in Get(s.dependBy, tag);
    } else {
      assert forall t :: t !in Get(s.dependBy, tag);
    }
  }

  ghost predicate AllPresent(s: State) {
    forall x, d :: x in s.outbounds && d in x.dependencies ==> d in s.byTag
  }

  /** So a successful removal never takes away what another outbound depends on. */
  lemma RemoveKeepsPresent(s: State, defaultTag: string, tag: string)
    requires Inv(s, defaultTag) && AllPresent(s) && Removed(s, tag).1.Done?
    ensures AllPresent(Removed(s, tag).0)
  {
    RemoveSucceedsIff(s, defaultTag, tag);
    var i := RemovedParts(s, tag);
    var r := Removed(s, tag).0;
    forall x, d | x in r.outbounds && d in x.dependencies ensures d in r.byTag {
      assert x in s.outbounds;
      assert LiveDependent(s.outbounds, x.tag, d);
    }
  }

  /**
   A removal that is not safe forgets a dependent: some live outbound still depends on `d`, which the other
   one listed twice, and the removal of `d` is then let through.
   */
  lemma UnsafeRemovalForgets(s: State, defaultTag: string, tag: string, d: string)
    requires Inv(s, defaultTag) && Removed(s, tag).1.Done? && tag in s.byTag
    requires Count(s.byTag[tag].dependencies, d) >= 2 && d in s.byTag && d != tag
    requires |Entries(Without(s.outbounds, IndexOf(s.outbounds, s.byTag[tag])), d)| == 1
    ensures Needed(Removed(s, tag).0, d) && Removed(Removed(s, tag).0, d).1.Done?
  {
    var i := RemovedParts(s, tag);
    var r := Removed(s, tag).0;
    RoundsAtRemoval(s.outbounds, i, s.dependBy, d);
    var t := Entries(r.outbounds, d)[0];
    EntryMembers(r.outbounds, d, t);
    var j := RemovedParts(r, d);
  }

  ghost predicate Usable(a: Item, b: Item, c: Item) {
    a.tag != "" && b.tag != "" && c.tag != "" && a.tag != b.tag && a.tag != c.tag && b.tag != c.tag
  }

  function Creations(items: seq<Item>): seq<Step> {
    if items == [] then [] else Creations(items[..|items| - 1]) + [Create(items[|items| - 1])]
  }

  /** Creations under new tags simply fill the list. */
  lemma {:induction false} CreationsKeepInv(defaultTag: string, items: seq<Item>)
    requires DistinctTags(items) && forall x :: x in items ==> x.tag != ""
    ensures var s := Run(EMPTY, defaultTag, Creations(items)); Inv(s, defaultTag) && s.outbounds == items
  {
    if items != [] {
      var init, x := items[..|items| - 1], items[|items| - 1];
      assert items == init + [x];
      CreationsKeepInv(defaultTag, init);
      CreationsStep(defaultTag, init, x);
      CreatesOneMore(Run(EMPTY, defaultTag, Creations(init)), defaultTag, x);
    }
  }

  lemma CreationsStep(defaultTag: string, init: seq<Item>, x: Item)
    ensures Run(EMPTY, defaultTag, Creations(init + [x])) ==
            Created(Run(EMPTY, defaultTag, Creations(init)), defaultTag, x).0
  {
    assert (init + [x])[..|init|] == init;
    assert Creations(init + [x])[..|Creations(init)|] == Creations(init);
  }

  lemma CreatesOneMore(s: State, defaultTag: string, x: Item)
    requires Inv(s, defaultTag) && x.tag != "" && DistinctTags(s.outbounds + [x])
    ensures var r := Created(s, defaultTag, x).0; Inv(r, defaultTag) && r.outbounds == s.outbounds + [x]
  {
    var all := s.outbounds + [x];
    forall y | y in s.outbounds ensures y.tag != x.tag {
      var i :| 0 <= i < |s.outbounds| && s.outbounds[i] == y;
      assert all[i].tag != all[|s.outbounds|].tag;
    }
    CreateKeepsInv(s, defaultTag, x);
  }

  /** The second of three components lists the first twice, the third once. */
  ghost predicate Shares(a: Item, b: Item, c: Item) {
    a.dependencies == [] && b.dependencies == [a.tag, a.tag] && c.dependencies == [a.tag]
  }

  lemma NobodyNeeds(s: State, a: Item, b: Item, c: Item)
    requires Usable(a, b, c) && Shares(a, b, c) && s.outbounds == [a, b, c]
    ensures !Needed(s, b.tag)
  {
  }

  lemma RemovalIsUnsafe(s: State, a: Item, b: Item, c: Item)
    requires Consistent(s.outbounds, s.byTag) && Usable(a, b, c) && Shares(a, b, c) && s.outbounds == [a, b, c]
    ensures a.tag in s.byTag && b.tag in s.byTag && s.byTag[b.tag] == b && Count(b.dependencies, a.tag) >= 2
    ensures |Entries(Without(s.outbounds, IndexOf(s.outbounds, b)), a.tag)| == 1
  {
    assert a in s.outbounds && b in s.outbounds;
    assert IndexOf(s.outbounds, b) == 1 && Without(s.outbounds, 1) == [a, c];
    OneEntry(a, c);
    CountTwice(a.tag);
  }

  lemma CountTwice(tag: string)
    ensures Count([tag, tag], tag) == 2
  {
    assert [tag, tag][..1] == [tag] && [tag][..0] == [];
    assert Count([tag], tag) == 1;
  }

  lemma ThirdIsForgotten(s: State, defaultTag: string, a: Item, b: Item, c: Item)
    requires Inv(s, defaultTag) && Usable(a, b, c) && Shares(a, b, c) && s.outbounds == [a, b, c]
    ensures Removed(s, b.tag).1.Done?
    ensures Needed(Removed(s, b.tag).0, a.tag) && Removed(Removed(s, b.tag).0, a.tag).1.Done?
  {
    RemovalIsUnsafe(s, a, b, c);
    NobodyNeeds(s, a, b, c);
    RemoveSucceedsIff(s, defaultTag, b.tag);
    UnsafeRemovalForgets(s, defaultTag, b.tag, a.tag);
  }

  /**
   Such a removal is reachable from the empty manager: a group that lists an outbound twice is removed, and
   then that outbound, although a third one still depends on it.
   */
  lemma DuplicateDependencyForgets(defaultTag: string, a: Item, b: Item, c: Item)
    requires Usable(a, b, c) && Shares(a, b, c)
    ensures var s := Run(EMPTY, defaultTag, Creations([a, b, c]));
            && Removed(s, b.tag).1.Done?
            && Needed(Removed(s, b.tag).0, a.tag) && Removed(Removed(s, b.tag).0, a.tag).1.Done?
  {
    CreationsKeepInv(defaultTag, [a, b, c]);
    ThirdIsForgotten(Run(EMPTY, defaultTag, Creations([a, b, c])), defaultTag, a, b, c);
  }

  lemma OneEntry(a: Item, c: Item)
    requires a.dependencies == [] && c.dependencies == [a.tag]
    ensures |Entries([a, c], a.tag)| == 1
  {
    assert [a, c][..1] == [a] && [a][..0] == [];
    assert Count([], a.tag) == 0 && Count([a.tag], a.tag) == 1;
    assert Entries([a], a.tag) == [];
  }

  // ---------- The default ----------

  /**
   The built-in outbound is added only to an empty list, so it cannot clash with a listed tag, and the
   manager starts with a default whenever preparation succeeds.
   */
  lemma PreparedIsConsistent(s: State, defaultTag: string, endpoints: map<string, Item>, builtIn: Option<Item>)
    requires Inv(s, defaultTag)
    ensures var (r, outcome) := Prepared(s, defaultTag, endpoints, builtIn);
            && Consistent(r.outbounds, r.byTag)
            && (r.outbounds != s.outbounds ==> s.outbounds == [] && defaultTag == "" && builtIn.Some?)
            && (outcome.Done? <==> r.default.Some?)
            && (s.default.Some? ==> r == s)
            && (outcome == DefaultNotFound <==> s.default.None? && defaultTag != "" && defaultTag !in endpoints)
            && (outcome == FallbackFailed <==> s.default.None? && defaultTag == "" && builtIn.None?)
            && (outcome.Done? ==>
                  || r.default.value in r.outbounds
                  || (defaultTag in endpoints && r.default.value == endpoints[defaultTag]))
  {
  }

  // ---------- Towards the start ----------

  function AsComponents(items: seq<Item>, failing: set<nat>): (components: seq<D.Component>)
    ensures |components| == |items|
  {
    seq(|items|, i requires 0 <= i < |items| =>
      D.Component(items[i].tag, items[i].dependencies, items[i].serial in failing))
  }

  function AsTable(byTag: map<string, Item>, failing: set<nat>): map<string, D.Component> {
    map t | t in byTag :: D.Component(byTag[t].tag, byTag[t].dependencies, byTag[t].serial in failing)
  }

  /** The built-in outbound is about to be added beside an endpoint of the same tag. */
  predicate BuiltInClashes(s: State, defaultTag: string, endpointByTag: map<string, Item>, builtIn: Option<Item>) {
    defaultTag == "" && s.default.None? && builtIn.Some? && builtIn.value.tag in endpointByTag
  }

  ghost predicate Names(items: seq<Item>, d: string) {
    exists x :: x in items && x.tag == d
  }

  /** Every dependency names a listed component. */
  ghost predicate AllNamed(items: seq<Item>) {
    forall x, d :: x in items && d in x.dependencies ==> Names(items, d)
  }

  lemma ComponentsMatch(items: seq<Item>, failing: set<nat>)
    ensures var components := AsComponents(items, failing);
            && (D.DistinctTags(components) <==> DistinctTags(items))
            && (forall d :: d in D.Tags(components) <==> Names(items, d))
            && (D.NoneFails(components) <==> forall x :: x in items ==> x.serial !in failing)
  {
    var components := AsComponents(items, failing);
    assert forall i :: 0 <= i < |items| ==> components[i].tag == items[i].tag;
    if D.DistinctTags(components) {
      forall i, j | 0 <= i < j < |items| ensures items[i].tag != items[j].tag {
        assert components[i].tag != components[j].tag;
      }
    }
    forall x | x in items ensures x.tag in D.Tags(components) && (x.serial in failing ==> !D.NoneFails(components)) {
      var i :| 0 <= i < |items| && items[i] == x;
      assert components[i] in components && components[i].tag == x.tag;
    }
    forall c | c in components
      ensures Names(items, c.tag) && (c.startFails ==> exists x :: x in items && x.serial in failing)
    {
      var i :| 0 <= i < |components| && components[i] == c;
      assert items[i] in items && items[i].tag == c.tag;
    }
  }

  lemma ClosedIffNamed(items: seq<Item>, failing: set<nat>)
    ensures D.Closed(AsComponents(items, failing)) <==> AllNamed(items)
  {
    var components := AsComponents(items, failing);
    ComponentsMatch(items, failing);
    if AllNamed(items) {
      forall c, d | c in components && d in c.dependencies ensures d in D.Tags(components) {
        var i :| 0 <= i < |components| && components[i] == c;
        assert items[i] in items;
      }
    }
    if D.Closed(components) {
      forall x, d | x in items && d in x.dependencies ensures Names(items, d) {
        var i :| 0 <= i < |items| && items[i] == x;
        assert components[i] in components && d in components[i].dependencies;
      }
    }
  }

  lemma DistinctTogether(a: seq<Item>, aByTag: map<string, Item>, b: seq<Item>, bByTag: map<string, Item>)
    requires Consistent(a, aByTag) && Consistent(b, bByTag)
    ensures DistinctTags(a + b) <==> aByTag.Keys !! bByTag.Keys
  {
    var all := a + b;
    if t :| t in aByTag && t in bByTag {
      var i :| 0 <= i < |a| && a[i] == aByTag[t];
      var j :| 0 <= j < |b| && b[j] == bByTag[t];
      assert all[i].tag == all[|a| + j].tag;
    } else {
      forall i, j | 0 <= i < j < |all| ensures all[i].tag != all[j].tag {
        if i < |a| <= j { assert a[i] in a && b[j - |a|] in b; }
      }
    }
  }

  lemma PreparedTags(s: State, defaultTag: string, endpointByTag: map<string, Item>, builtIn: Option<Item>)
    requires Listed(s, defaultTag) && s.byTag.Keys !! endpointByTag.Keys
    ensures var r := Prepared(s, defaultTag, endpointByTag, builtIn).0;
            && Consistent(r.outbounds, r.byTag)
            && (r.byTag.Keys !! endpointByTag.Keys <==> !BuiltInClashes(s, defaultTag, endpointByTag, builtIn))
  {
  }

  /**
   What the start loop is handed after preparation: the outbounds with the built-in one, then the endpoints.
   The tags are distinct unless the built-in outbound clashes, the table holds listed outbounds, and the list
   is complete exactly when every dependency names an outbound or an endpoint.
   */
  lemma StartIsWellPrepared(
    s: State, defaultTag: string, endpoints: seq<Item>, endpointByTag: map<string, Item>, builtIn: Option<Item>,
    failing: set<nat>)
    requires Listed(s, defaultTag) && Consistent(endpoints, endpointByTag) && s.byTag.Keys !! endpointByTag.Keys
    ensures var r := Prepared(s, defaultTag, endpointByTag, builtIn).0;
            var components := AsComponents(r.outbounds + endpoints, failing);
            && (D.DistinctTags(components) <==> !BuiltInClashes(s, defaultTag, endpointByTag, builtIn))
            && D.TableWithin(AsTable(r.byTag, failing), components)
            && (D.Closed(components) <==> AllNamed(r.outbounds + endpoints))
  {
    var r := Prepared(s, defaultTag, endpointByTag, builtIn).0;
    PreparedTags(s, defaultTag, endpointByTag, builtIn);
    DistinctTogether(r.outbounds, r.byTag, endpoints, endpointByTag);
    ComponentsMatch(r.outbounds + endpoints, failing);
    ClosedIffNamed(r.outbounds + endpoints, failing);
    TableIsWithin(r, endpoints, failing);
  }

  lemma TableIsWithin(r: State, endpoints: seq<Item>, failing: set<nat>)
    requires Consistent(r.outbounds, r.byTag)
    ensures D.TableWithin(AsTable(r.byTag, failing), AsComponents(r.outbounds + endpoints, failing))
  {
    var components, table := AsComponents(r.outbounds + endpoints, failing), AsTable(r.byTag, failing);
    forall t | t in table ensures table[t] in components && table[t].tag == t {
      var i :| 0 <= i < |r.outbounds| && r.outbounds[i] == r.byTag[t];
      assert components[i] == table[t];
    }
  }

  datatype StartOutcome = NotPrepared(reason: Outcome) | Ran(result: D.Outcome)

  /** Every dependency names a listed component, the dependencies are acyclic, and nothing fails to start. */
  ghost predicate WellConfigured(all: seq<Item>, failing: set<nat>) {
    AllNamed(all) && D.Acyclic(AsComponents(all, failing)) && forall x :: x in all ==> x.serial !in failing
  }

  lemma ConfiguredIff(all: seq<Item>, failing: set<nat>)
    ensures var components := AsComponents(all, failing);
            WellConfigured(all, failing) <==> D.Closed(components) && D.Acyclic(components) && D.NoneFails(components)
  {
    ComponentsMatch(all, failing);
    ClosedIffNamed(all, failing);
  }

  /** The endpoints other than the one of this tag. */
  function Others(endpoints: seq<Item>, endpointByTag: map<string, Item>, tag: string): seq<Item> {
    if tag in endpointByTag && IndexOf(endpoints, endpointByTag[tag]) >= 0
    then Without(endpoints, IndexOf(endpoints, endpointByTag[tag])) else endpoints
  }

  lemma ComponentsSplit(x: Item, endpoints: seq<Item>, i: nat, failing: set<nat>)
    requires i < |endpoints|
    ensures var head, tail := AsComponents([x], failing)[0], AsComponents(endpoints, failing);
            && AsComponents([x] + endpoints, failing) == [head] + tail
            && AsComponents([x] + Without(endpoints, i), failing) == [head] + D.Omitting(tail, i)
  {
  }

  lemma ClashEnds(
    x: Item, endpoints: seq<Item>, endpointByTag: map<string, Item>, failing: set<nat>, outcome: D.Outcome,
    order: seq<D.Component>)
    requires Consistent(endpoints, endpointByTag) && x.tag in endpointByTag && x.dependencies == []
    requires D.Reported(AsComponents([x] + endpoints, failing), outcome, order)
    ensures outcome.NilDereference? <==> WellConfigured([x] + Others(endpoints, endpointByTag, x.tag), failing)
  {
    var i := IndexOf(endpoints, endpointByTag[x.tag]);
    var head, tail := AsComponents([x], failing)[0], AsComponents(endpoints, failing);
    ComponentsSplit(x, endpoints, i, failing);
    ComponentsMatch(endpoints, failing);
    D.ShadowedStartIff(head, tail, i, outcome, order);
    ConfiguredIff([x] + Without(endpoints, i), failing);
  }

  /**
   The start succeeds exactly when a default is found, the built-in outbound does not clash with an endpoint,
   and the whole list is well configured; then everything was started, in dependency order. Only a clash can
   end in a nil dereference. A built-in outbound without dependencies keeps its namesake from being started,
   and the clash ends that way exactly when everything else is well configured.
   */
  ghost predicate StartExact(
    s: State, defaultTag: string, endpoints: seq<Item>, endpointByTag: map<string, Item>, builtIn: Option<Item>,
    failing: set<nat>, outcome: StartOutcome, order: seq<D.Component>)
  {
    var (r, prepared) := Prepared(s, defaultTag, endpointByTag, builtIn);
    var all, clash := r.outbounds + endpoints, BuiltInClashes(s, defaultTag, endpointByTag, builtIn);
    && (prepared.Done? <==> outcome.Ran?)
    && (outcome.Ran? ==> LoopExact(all, clash, failing, outcome.result, order))
    && (clash && builtIn.value.dependencies == [] ==>
          (outcome == Ran(D.NilDereference) <==>
             WellConfigured([builtIn.value] + Others(endpoints, endpointByTag, builtIn.value.tag), failing)))
  }

  ghost predicate LoopExact(
    all: seq<Item>, clash: bool, failing: set<nat>, result: D.Outcome, order: seq<D.Component>)
  {
    && (result.Started? <==> !clash && WellConfigured(all, failing))
    && (clash && WellConfigured(all, failing) ==> result.NilDereference?)
    && (result.NilDereference? ==> clash)
    && (result.Started? ==>
          && |order| == |all| && D.DependenciesFirst(order)
          && forall c :: c in AsComponents(all, failing) ==> c in order)
  }

  lemma LoopEnds(all: seq<Item>, clash: bool, failing: set<nat>, result: D.Outcome, order: seq<D.Component>)
    requires D.DistinctTags(AsComponents(all, failing)) <==> !clash
    requires D.Reported(AsComponents(all, failing), result, order)
    ensures LoopExact(all, clash, failing, result, order)
  {
    ConfiguredIff(all, failing);
  }

  lemma StartEnds(
    s: State, defaultTag: string, endpoints: seq<Item>, endpointByTag: map<string, Item>, builtIn: Option<Item>,
    failing: set<nat>, result: D.Outcome, order: seq<D.Component>)
    requires Listed(s, defaultTag) && Consistent(endpoints, endpointByTag) && s.byTag.Keys !! endpointByTag.Keys
    requires Prepared(s, defaultTag, endpointByTag, builtIn).1.Done?
    requires var all := Prepared(s, defaultTag, endpointByTag, builtIn).0.outbounds + endpoints;
             D.Reported(AsComponents(all, failing), result, order)
    ensures StartExact(s, defaultTag, endpoints, endpointByTag, builtIn, failing, Ran(result), order)
  {
    var all := Prepared(s, defaultTag, endpointByTag, builtIn).0.outbounds + endpoints;
    StartTags(s, defaultTag, endpoints, endpointByTag, builtIn, failing);
    LoopEnds(all, BuiltInClashes(s, defaultTag, endpointByTag, builtIn), failing, result, order);
    if BuiltInClashes(s, defaultTag, endpointByTag, builtIn) && builtIn.value.dependencies == [] {
      ClashEnds(builtIn.value, endpoints, endpointByTag, failing, result, order);
    }
  }

  lemma StartTags(
    s: State, defaultTag: string, endpoints: seq<Item>, endpointByTag: map<string, Item>, builtIn: Option<Item>,
    failing: set<nat>)
    requires Listed(s, defaultTag) && Consistent(endpoints, endpointByTag) && s.byTag.Keys !! endpointByTag.Keys
    ensures var all := Prepared(s, defaultTag, endpointByTag, builtIn).0.outbounds + endpoints;
            var clash := BuiltInClashes(s, defaultTag, endpointByTag, builtIn);
            && (D.DistinctTags(AsComponents(all, failing)) <==> !clash)
            && (clash ==> all == [builtIn.value] + endpoints)
  {
    StartIsWellPrepared(s, defaultTag, endpoints, endpointByTag, builtIn, failing);
  }

  /** Whatever was created and removed before, as long as no outbound and endpoint share a tag. */
  method RunThenStart(
    defaultTag: string, steps: seq<Step>, endpoints: seq<Item>, endpointByTag: map<string, Item>,
    builtIn: Option<Item>, failing: set<nat>)
    returns (outcome: StartOutcome, order: seq<D.Component>)
    requires Consistent(endpoints, endpointByTag)
    requires Run(EMPTY, defaultTag, steps).byTag.Keys !! endpointByTag.Keys
    ensures StartExact(
              Run(EMPTY, defaultTag, steps), defaultTag, endpoints, endpointByTag, builtIn, failing, outcome, order)
  {
    var manager := new Manager(defaultTag);
    assert steps[..0] == [];
    for i := 0 to |steps|
      invariant manager.View() == Run(EMPTY, defaultTag, steps[..i])
      invariant manager.defaultTag == defaultTag && fresh(manager)
    {
      assert steps[..i + 1][..i] == steps[..i];
      var ignored;
      match steps[i] {
        case Create(x) => ignored := manager.Create(x);
        case Remove(tag) => ignored := manager.Remove(tag);
      }
    }
    assert steps[..|steps|] == steps;
    AnyRunIsListed(defaultTag, steps);
    outcome, order := manager.Start(endpoints, endpointByTag, builtIn, failing);
  }

  /** With no outbounds configured and an endpoint under the built-in outbound's tag, the start crashes. */
  method ClashingEndpointCrashes(endpoint: Item, direct: Item) returns (outcome: StartOutcome)
    requires endpoint.tag == direct.tag && direct.dependencies == []
    ensures outcome == Ran(D.NilDereference)
  {
    ghost var byTag := map[endpoint.tag := endpoint];
    assert Others([endpoint], byTag, direct.tag) == [];
    assert WellConfigured([direct] + [], {}) by {
      ghost var components := AsComponents([direct] + [], {});
      assert forall from, to :: !D.DependsOn(components, from, to);
    }
    var order;
    outcome, order := RunThenStart("", [], [endpoint], map[endpoint.tag := endpoint], Some(direct), {});
  }
}
