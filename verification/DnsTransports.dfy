/** The default and the fakeip server of the DNS transport manager, over creations and removals before the start. */
module DnsTransports {
  import opened Wrappers
  import opened ComponentIndex

  const FAKEIP := "fakeip"

  datatype State = State(
    transports: seq<Item>, byTag: map<string, Item>, dependBy: Dependents, default: Option<Item>, fakeIP: Option<Item>)

  datatype Outcome =
    | Done
    | Invalid
    | DefaultIsFakeIP
    | SecondFakeIP
    | DependedOn(dependents: seq<string>)
    | DefaultNotFound
    | FallbackFailed
    | PanicIndex

  const EMPTY := State([], map[], map[], None, None)

  /** `Create`; a server refused as default or as second fakeip is listed nevertheless. */
  function Created(s: State, defaultTag: string, x: Item): (State, Outcome) {
    if x.tag == "" then (s, Invalid)
    else
      var existing := if x.tag in s.byTag then IndexOf(s.transports, s.byTag[x.tag]) else 0;
      if existing == -1 then (s, PanicIndex)
      else
        var kept := if x.tag in s.byTag then Without(s.transports, existing) else s.transports;
        var listed := s.(transports := kept + [x], byTag := s.byTag[x.tag := x],
                         dependBy := Link(s.dependBy, x.dependencies, x.tag));
        var takesDefault := x.tag == defaultTag || (defaultTag == "" && s.default.None?);
        if takesDefault && x.kind == FAKEIP then (listed, DefaultIsFakeIP)
        else
          var chosen := if takesDefault then listed.(default := Some(x)) else listed;
          if x.kind != FAKEIP then (chosen, Done)
          else if s.fakeIP.Some? then (chosen, SecondFakeIP)
          else (chosen.(fakeIP := Some(x)), Done)
  }

  /** `Remove`; its test on the next default is the opposite of its error message. */
  function Removed(s: State, tag: string): (State, Outcome) {
    if tag !in s.byTag then (s, Invalid)
    else
      var x := s.byTag[tag];
      var i := IndexOf(s.transports, x);
      if i == -1 then (s.(byTag := s.byTag - {tag}), PanicIndex)
      else
        var rest := Without(s.transports, i);
        var dropped := s.(transports := rest, byTag := s.byTag - {tag});
        if s.default == Some(x) && rest != [] && rest[0].kind != FAKEIP then (dropped, DefaultIsFakeIP)
        else
          var next := if s.default != Some(x) then s.default else if rest == [] then None else Some(rest[0]);
          var reassigned := dropped.(default := next);
          if Get(s.dependBy, tag) != [] then (reassigned, DependedOn(Get(s.dependBy, tag)))
          else (reassigned.(dependBy := Unlink(s.dependBy, x.dependencies, tag)), Done)
  }

  /** The first part of `Start`: a built-in server stands in for a missing default. */
  function Prepared(s: State, defaultTag: string, builtIn: Option<Item>): (State, Outcome) {
    if s.default.Some? then (s, Done)
    else if defaultTag != "" then (s, DefaultNotFound)
    else if builtIn.None? then (s, FallbackFailed)
    else
      var x := builtIn.value;
      (s.(transports := s.transports + [x], byTag := s.byTag[x.tag := x], default := Some(x)), Done)
  }

  class TransportManager {
    const defaultTag: string
    var transports: seq<Item>
    var transportByTag: map<string, Item>
    var dependByTag: Dependents
    var defaultTransport: Option<Item>
    var fakeIPTransport: Option<Item>

    ghost function View(): State
      reads this
    {
      State(transports, transportByTag, dependByTag, defaultTransport, fakeIPTransport)
    }

    constructor (defaultTag: string)
      ensures this.defaultTag == defaultTag && View() == EMPTY
    {
      this.defaultTag := defaultTag;
      transports, transportByTag, dependByTag := [], map[], map[];
      defaultTransport, fakeIPTransport := None, None;
    }

    method Create(x: Item) returns (outcome: Outcome)
      modifies this
      ensures (View(), outcome) == Created(old(View()), defaultTag, x)
    {
      if x.tag == "" { return Invalid; }
      if x.tag in transportByTag {
        var existsIndex := IndexOf(transports, transportByTag[x.tag]);
        if existsIndex == -1 { return PanicIndex; }
        transports := Without(transports, existsIndex);
      }
      transports := transports + [x];
      transportByTag := transportByTag[x.tag := x];
      dependByTag := AddDependents(dependByTag, x.dependencies, x.tag);
      if x.tag == defaultTag || (defaultTag == "" && defaultTransport.None?) {
        if x.kind == FAKEIP { return DefaultIsFakeIP; }
        defaultTransport := Some(x);
      }
      if x.kind == FAKEIP {
        if fakeIPTransport.Some? { return SecondFakeIP; }
        fakeIPTransport := Some(x);
      }
      outcome := Done;
    }

    method Remove(tag: string) returns (outcome: Outcome)
      modifies this
      ensures (View(), outcome) == Removed(old(View()), tag)
    {
      if tag !in transportByTag { return Invalid; }
      var transport := transportByTag[tag];
      transportByTag := transportByTag - {tag};
      var index := IndexOf(transports, transport);
      if index == -1 { return PanicIndex; }
      transports := Without(transports, index);
      if defaultTransport == Some(transport) {
        if |transports| > 0 {
          if transports[0].kind != FAKEIP { return DefaultIsFakeIP; }
          defaultTransport := Some(transports[0]);
        } else {
          defaultTransport := None;
        }
      }
      var dependBy := Get(dependByTag, tag);
      if |dependBy| > 0 { return DependedOn(dependBy); }
      dependByTag := DropDependents(dependByTag, transport.dependencies, tag);
      outcome := Done;
    }

    method PrepareStart(builtIn: Option<Item>) returns (outcome: Outcome)
      modifies this
      ensures (View(), outcome) == Prepared(old(View()), defaultTag, builtIn)
    {
      if defaultTag != "" && defaultTransport.None? { return DefaultNotFound; }
      if defaultTransport.None? {
        if builtIn.None? { return FallbackFailed; }
        transports := transports + [builtIn.value];
        transportByTag := transportByTag[builtIn.value.tag := builtIn.value];
        defaultTransport := builtIn;
      }
      outcome := Done;
    }
  }

  // ---------- The default server is not fakeip ----------

  predicate DefaultUsable(s: State) {
    s.default.Some? ==> s.default.value.kind != FAKEIP
  }

  /** Whatever is created, and whatever it returns, the default stays usable. */
  lemma {:induction false} CreationsKeepDefaultUsable(defaultTag: string, s: State, created: seq<Item>)
    requires DefaultUsable(s)
    ensures DefaultUsable(AllCreated(s, defaultTag, created))
  {
    if created != [] {
      CreationsKeepDefaultUsable(defaultTag, s, created[..|created| - 1]);
    }
  }

  ghost function AllCreated(s: State, defaultTag: string, created: seq<Item>): State {
    if created == [] then s
    else Created(AllCreated(s, defaultTag, created[..|created| - 1]), defaultTag, created[|created| - 1]).0
  }

  // ---------- What creations come to ----------

  predicate FakeServer(x: Item) {
    x.tag != "" && x.kind == FAKEIP
  }

  predicate UsableServer(x: Item) {
    x.tag != "" && x.kind != FAKEIP
  }

  /** The server would become the default: it is the configured one, or none is configured and there is none yet. */
  predicate Designated(s: State, defaultTag: string, x: Item) {
    x.tag == defaultTag || (defaultTag == "" && s.default.None?)
  }

  /** A server is always listed, last and under its tag, even if it is refused. */
  lemma CreationLists(s: State, defaultTag: string, x: Item)
    requires x.tag != "" && (x.tag in s.byTag ==> s.byTag[x.tag] in s.transports)
    ensures !Created(s, defaultTag, x).1.PanicIndex?
    ensures Created(s, defaultTag, x).0.byTag == s.byTag[x.tag := x]
    ensures Created(s, defaultTag, x).0.transports == Relisted(s, x) + [x]
  {
  }

  /** The list without the server that had the tag before. */
  function Relisted(s: State, x: Item): seq<Item> {
    if x.tag in s.byTag && s.byTag[x.tag] in s.transports
    then Without(s.transports, IndexOf(s.transports, s.byTag[x.tag])) else s.transports
  }

  lemma CreationKeepsConsistent(s: State, defaultTag: string, x: Item)
    requires Consistent(s.transports, s.byTag)
    ensures Consistent(Created(s, defaultTag, x).0.transports, Created(s, defaultTag, x).0.byTag)
  {
    if x.tag != "" {
      CreationLists(s, defaultTag, x);
      if x.tag in s.byTag {
        ConsistentReplace(s.transports, s.byTag, IndexOf(s.transports, s.byTag[x.tag]), x);
      } else {
        ConsistentAppend(s.transports, s.byTag, x);
      }
    }
  }

  /** A fakeip server is refused as the default, and as a second one; nothing else with a tag is refused. */
  lemma CreationOutcome(s: State, defaultTag: string, x: Item)
    requires Consistent(s.transports, s.byTag)
    ensures Created(s, defaultTag, x).1 ==
            if x.tag == "" then Invalid
            else if FakeServer(x) && Designated(s, defaultTag, x) then DefaultIsFakeIP
            else if FakeServer(x) && s.fakeIP.Some? then SecondFakeIP
            else Done
    ensures Created(s, defaultTag, x).0.default ==
            if UsableServer(x) && Designated(s, defaultTag, x) then Some(x) else s.default
    ensures Created(s, defaultTag, x).0.fakeIP ==
            if FakeServer(x) && !Designated(s, defaultTag, x) && s.fakeIP.None? then Some(x) else s.fakeIP
  {
  }

  ghost predicate FirstUsable(created: seq<Item>, i: nat) {
    i < |created| && UsableServer(created[i]) && forall j :: 0 <= j < i ==> !UsableServer(created[j])
  }

  /** The last server created under the configured tag that can be the default. */
  ghost predicate LastNamed(created: seq<Item>, defaultTag: string, i: nat) {
    && i < |created| && UsableServer(created[i]) && created[i].tag == defaultTag
    && forall j :: i < j < |created| && created[j].tag == defaultTag ==> !UsableServer(created[j])
  }

  /** The first fakeip server that was not meant to be the default. */
  ghost predicate FirstFake(created: seq<Item>, defaultTag: string, i: nat) {
    && i < |created| && SpareFake(created, defaultTag, i)
    && forall j :: 0 <= j < i ==> !SpareFake(created, defaultTag, j)
  }

  ghost predicate SpareFake(created: seq<Item>, defaultTag: string, i: nat)
    requires i < |created|
  {
    && FakeServer(created[i]) && created[i].tag != defaultTag
    && (defaultTag == "" ==> exists j :: 0 <= j < i && UsableServer(created[j]))
  }

  ghost predicate DefaultChosen(created: seq<Item>, defaultTag: string, default: Option<Item>) {
    if defaultTag == "" then
      if default.None? then forall i :: 0 <= i < |created| ==> !UsableServer(created[i])
      else exists i: nat :: FirstUsable(created, i) && created[i] == default.value
    else
      if default.None? then
        forall i :: 0 <= i < |created| && created[i].tag == defaultTag ==> !UsableServer(created[i])
      else exists i: nat :: LastNamed(created, defaultTag, i) && created[i] == default.value
  }

  ghost predicate FakeIPChosen(created: seq<Item>, defaultTag: string, fakeIP: Option<Item>) {
    if fakeIP.None? then forall i :: 0 <= i < |created| ==> !SpareFake(created, defaultTag, i)
    else exists i: nat :: FirstFake(created, defaultTag, i) && created[i] == fakeIP.value
  }

  lemma DefaultChosenStep(init: seq<Item>, x: Item, defaultTag: string, s: State)
    requires Consistent(s.transports, s.byTag) && DefaultChosen(init, defaultTag, s.default)
    ensures DefaultChosen(init + [x], defaultTag, Created(s, defaultTag, x).0.default)
  {
    CreationOutcome(s, defaultTag, x);
    var all := init + [x];
    assert all[|init|] == x && forall i :: 0 <= i < |init| ==> all[i] == init[i];
    if defaultTag == "" {
      if s.default.Some? {
        var i: nat :| FirstUsable(init, i) && init[i] == s.default.value;
        assert FirstUsable(all, i);
      } else if UsableServer(x) {
        assert FirstUsable(all, |init|);
      }
    } else if UsableServer(x) && x.tag == defaultTag {
      assert LastNamed(all, defaultTag, |init|);
    } else if s.default.Some? {
      var i: nat :| LastNamed(init, defaultTag, i) && init[i] == s.default.value;
      assert LastNamed(all, defaultTag, i);
    }
  }

  lemma SpareFakeAppend(init: seq<Item>, x: Item, defaultTag: string, i: nat)
    requires i < |init|
    ensures SpareFake(init + [x], defaultTag, i) <==> SpareFake(init, defaultTag, i)
  {
    var all := init + [x];
    assert forall j :: 0 <= j < |init| ==> all[j] == init[j];
  }

  lemma DesignatedIff(init: seq<Item>, x: Item, defaultTag: string, s: State)
    requires DefaultChosen(init, defaultTag, s.default) && FakeServer(x)
    ensures SpareFake(init + [x], defaultTag, |init|) <==> !Designated(s, defaultTag, x)
  {
    var all := init + [x];
    assert all[|init|] == x && forall j :: 0 <= j < |init| ==> all[j] == init[j];
    if defaultTag == "" && s.default.Some? {
      var i: nat :| FirstUsable(init, i) && init[i] == s.default.value;
      assert UsableServer(all[i]);
    }
  }

  lemma FakeIPChosenStep(init: seq<Item>, x: Item, defaultTag: string, s: State)
    requires Consistent(s.transports, s.byTag) && DefaultChosen(init, defaultTag, s.default)
    requires FakeIPChosen(init, defaultTag, s.fakeIP)
    ensures FakeIPChosen(init + [x], defaultTag, Created(s, defaultTag, x).0.fakeIP)
  {
    CreationOutcome(s, defaultTag, x);
    var all := init + [x];
    assert all[|init|] == x;
    forall i: nat | i < |init| ensures SpareFake(all, defaultTag, i) <==> SpareFake(init, defaultTag, i) {
      SpareFakeAppend(init, x, defaultTag, i);
    }
    if FakeServer(x) { DesignatedIff(init, x, defaultTag, s); }
    if s.fakeIP.Some? {
      var i: nat :| FirstFake(init, defaultTag, i) && init[i] == s.fakeIP.value;
      assert FirstFake(all, defaultTag, i);
    } else if FakeServer(x) && !Designated(s, defaultTag, x) {
      assert FirstFake(all, defaultTag, |init|);
    }
  }

  /**
   After any creations from scratch: without a configured tag the default is the first server that is not
   fakeip, otherwise the last such server of that tag; the fakeip server is the first one not meant to be the
   default.
   */
  lemma {:induction false} CreationsChoose(defaultTag: string, created: seq<Item>)
    ensures var s := AllCreated(EMPTY, defaultTag, created);
            && Consistent(s.transports, s.byTag)
            && DefaultChosen(created, defaultTag, s.default) && FakeIPChosen(created, defaultTag, s.fakeIP)
  {
    if created != [] {
      var init, x := created[..|created| - 1], created[|created| - 1];
      assert created == init + [x];
      CreationsChoose(defaultTag, init);
      var s := AllCreated(EMPTY, defaultTag, init);
      CreationKeepsConsistent(s, defaultTag, x);
      DefaultChosenStep(init, x, defaultTag, s);
      FakeIPChosenStep(init, x, defaultTag, s);
    }
  }

  /** The start fails for want of a default exactly if no created server qualifies and nothing stands in for it. */
  lemma StartFindsDefaultIff(defaultTag: string, created: seq<Item>, builtIn: Option<Item>)
    ensures var (s, outcome) := Prepared(AllCreated(EMPTY, defaultTag, created), defaultTag, builtIn);
            && (outcome == DefaultNotFound <==>
                  defaultTag != "" && forall x :: x in created && x.tag == defaultTag ==> !UsableServer(x))
            && (outcome == FallbackFailed <==>
                  defaultTag == "" && builtIn.None? && forall x :: x in created ==> !UsableServer(x))
            && (outcome == Done <==> s.default.Some?)
            && (outcome == Done || outcome == DefaultNotFound || outcome == FallbackFailed)
  {
    CreationsChoose(defaultTag, created);
  }

  /** The default server is about to go, and this one comes next in the list. */
  ghost predicate Succeeds(s: State, tag: string, next: Item) {
    && tag in s.byTag && s.default == Some(s.byTag[tag]) && |s.transports| > 1
    && next == if s.transports[0] == s.byTag[tag] then s.transports[1] else s.transports[0]
  }

  /** A removal can make a fakeip server the default, and does so exactly when one comes next in the list. */
  lemma RemovalBreaksDefaultIff(s: State, tag: string)
    requires DefaultUsable(s) && Consistent(s.transports, s.byTag)
    ensures DefaultUsable(Removed(s, tag).0) <==> !exists next :: Succeeds(s, tag, next) && next.kind == FAKEIP
  {
  }

  ghost predicate DefaultListed(s: State) {
    s.default.Some? ==> s.default.value in s.transports
  }

  /**
   Any other successor has the removal refused half-way: exactly then the default is a server that is no
   longer listed. So the default never goes well while other servers are left.
   */
  lemma RemovalUnlistsDefaultIff(s: State, tag: string)
    requires DefaultListed(s) && Consistent(s.transports, s.byTag)
    ensures DefaultListed(Removed(s, tag).0) <==> !exists next :: Succeeds(s, tag, next) && next.kind != FAKEIP
    ensures forall next :: Succeeds(s, tag, next) && next.kind != FAKEIP ==>
              Removed(s, tag).1 == DefaultIsFakeIP && Removed(s, tag).0.default == s.default
  {
    if tag in s.byTag {
      var i := IndexOf(s.transports, s.byTag[tag]);
      ConsistentRemove(s.transports, s.byTag, i);
      var rest := Without(s.transports, i);
      if rest != [] {
        assert rest[0] in rest;
        assert s.default == Some(s.byTag[tag]) ==> Succeeds(s, tag, rest[0]);
      }
    }
  }

  /** Two ordinary servers and the removal of the first are enough for that. */
  lemma RemovalLeavesDefaultUnlisted(x: Item, y: Item)
    requires x.tag != "" && y.tag != "" && x.tag != y.tag && x.kind != FAKEIP && y.kind != FAKEIP
    ensures var s := Created(Created(EMPTY, "", x).0, "", y).0;
            && s.default == Some(x) && DefaultListed(s)
            && Removed(s, x.tag).1 == DefaultIsFakeIP && !DefaultListed(Removed(s, x.tag).0)
  {
    var s := Created(Created(EMPTY, "", x).0, "", y).0;
    assert s.transports == [x, y] && IndexOf(s.transports, x) == 0;
    assert Without(s.transports, 0) == [y];
  }

  /** Such a removal is reachable: a usable default and a fakeip server are created, and the default is removed. */
  lemma RemovalMakesFakeIPDefault(x: Item, fake: Item)
    requires x.tag != "" && fake.tag != "" && x.tag != fake.tag && x.kind != FAKEIP && fake.kind == FAKEIP
    requires x.dependencies == [] && fake.dependencies == []
    ensures var s := Created(Created(EMPTY, "", x).0, "", fake).0;
            && DefaultUsable(s) && s.default == Some(x)
            && Removed(s, x.tag).1.Done? && Removed(s, x.tag).0.default == Some(fake)
  {
    var s := Created(Created(EMPTY, "", x).0, "", fake).0;
    assert s.transports == [x, fake] && IndexOf(s.transports, x) == 0;
    assert Without(s.transports, 0) == [fake];
  }
}
