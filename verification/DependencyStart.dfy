/**
 The dependency-ordered start used for outbounds (with endpoints) and for DNS transports: passes over
 the component list start whatever has all its dependencies started; when a pass starts nothing, a
 recursive walk over the tag table says whether a cycle or a missing component is to blame.
 */
module DependencyStart {

  /** `startFails` is the verdict of the component's own Start call (a component without Start never fails). */
  datatype Component = Component(tag: string, dependencies: seq<string>, startFails: bool)

  datatype Outcome =
    | Started
    | StartFailed(failed: string)
    | Circular(path: seq<string>, repeated: string)
    | NotFound(dependency: string, dependent: string)
    | NilDereference // nothing is left to start, yet the counts differ: the search yields a nil component

  // ---------- The dependency graph ----------

  predicate DistinctTags(components: seq<Component>) {
    forall i, j :: 0 <= i < j < |components| ==> components[i].tag != components[j].tag
  }

  function Tags(components: seq<Component>): set<string> {
    set c | c in components :: c.tag
  }

  ghost predicate Closed(components: seq<Component>) {
    forall c, d :: c in components && d in c.dependencies ==> d in Tags(components)
  }

  ghost predicate DependsOn(components: seq<Component>, from: string, to: string) {
    exists c :: c in components && c.tag == from && to in c.dependencies
  }

  ghost predicate IsChain(components: seq<Component>, path: seq<string>) {
    forall i :: 0 <= i < |path| - 1 ==> DependsOn(components, path[i], path[i + 1])
  }

  ghost predicate IsCycle(components: seq<Component>, path: seq<string>) {
    path != [] && IsChain(components, path) && DependsOn(components, path[|path| - 1], path[0])
  }

  ghost predicate Acyclic(components: seq<Component>) {
    forall path :: !IsCycle(components, path)
  }

  ghost predicate NoneFails(components: seq<Component>) {
    forall c :: c in components ==> !c.startFails
  }

  /** Each component comes after everything it depends on. */
  ghost predicate DependenciesFirst(order: seq<Component>) {
    forall i, d :: 0 <= i < |order| && d in order[i].dependencies ==> d in Tags(order[..i])
  }

  /** No further component could be started: each one left waits for a tag that is not started. */
  ghost predicate Stuck(components: seq<Component>, started: set<string>) {
    forall c :: c in components && c.tag !in started ==> Waits(c, started)
  }

  predicate Waits(c: Component, started: set<string>) {
    exists d :: d in c.dependencies && d !in started
  }

  // ---------- The diagnosis ----------

  /** `common.Find` over the dependencies: the first one not started, or the empty string. */
  function FirstUnstarted(dependencies: seq<string>, started: set<string>): (tag: string)
    ensures (exists d :: d in dependencies && d !in started) ==> tag in dependencies && tag !in started
    ensures (forall d :: d in dependencies ==> d in started) ==> tag == ""
  {
    if dependencies == [] then ""
    else if dependencies[0] !in started then dependencies[0]
    else FirstUnstarted(dependencies[1..], started)
  }

  lemma {:induction false} FirstUnstartedIsFirst(dependencies: seq<string>, started: set<string>, i: nat)
    requires i < |dependencies| && dependencies[i] !in started
    requires forall k :: 0 <= k < i ==> dependencies[k] in started
    ensures FirstUnstarted(dependencies, started) == dependencies[i]
  {
    if i > 0 { FirstUnstartedIsFirst(dependencies[1..], started, i - 1); }
  }

  /** The walk of `lintOutbound` and `lintTransport`. */
  function Lint(
    table: map<string, Component>, started: set<string>, path: seq<string>, current: Component): (r: Outcome)
    ensures r.Circular? || r.NotFound?
    ensures r.Circular? ==> |r.path| <= |path| + |table.Keys - (set t | t in path)|
    decreases table.Keys - (set t | t in path)
  {
    var problem := FirstUnstarted(current.dependencies, started);
    if problem in path then Circular(path, problem)
    else if problem !in table then NotFound(problem, current.tag)
    else
      assert (table.Keys - (set t | t in path)) - {problem} == table.Keys - (set t | t in path + [problem]);
      Lint(table, started, path + [problem], table[problem])
  }

  /** Every table entry is one of the listed components, under its own tag. */
  ghost predicate TableWithin(table: map<string, Component>, components: seq<Component>) {
    forall t :: t in table ==> table[t] in components && table[t].tag == t
  }

  /** A circular report exhibits a cycle of unstarted components, a missing one names an absent dependency. */
  ghost predicate Truthful(
    components: seq<Component>, table: map<string, Component>, started: set<string>, report: Outcome)
  {
    match report
    case Circular(path, repeated) =>
      exists k :: 0 <= k < |path| && path[k] == repeated && IsCycle(components, path[k..])
                  && forall t :: t in path[k..] ==> t !in started
    case NotFound(dependency, dependent) =>
      dependency !in table && dependency !in started && dependent !in started
      && DependsOn(components, dependent, dependency)
    case _ => false
  }

  lemma {:induction false} LintIsTruthful(
    components: seq<Component>, table: map<string, Component>, started: set<string>,
    path: seq<string>, current: Component)
    requires TableWithin(table, components) && Stuck(components, started)
    requires current in components && path != [] && path[|path| - 1] == current.tag
    requires IsChain(components, path) && forall t :: t in path ==> t !in started
    ensures Truthful(components, table, started, Lint(table, started, path, current))
    decreases table.Keys - (set t | t in path)
  {
    var problem := FirstUnstarted(current.dependencies, started);
    assert current.tag in path && Waits(current, started);
    assert DependsOn(components, current.tag, problem);
    if problem in path {
      var k :| 0 <= k < |path| && path[k] == problem;
      SuffixIsCycle(components, path, k);
    } else if problem in table {
      assert (table.Keys - (set t | t in path)) - {problem} == table.Keys - (set t | t in path + [problem]);
      ChainExtends(components, path, problem);
      LintIsTruthful(components, table, started, path + [problem], table[problem]);
    }
  }

  lemma SuffixIsCycle(components: seq<Component>, path: seq<string>, k: nat)
    requires IsChain(components, path) && k < |path| && DependsOn(components, path[|path| - 1], path[k])
    ensures IsCycle(components, path[k..])
  {
  }

  lemma ChainExtends(components: seq<Component>, path: seq<string>, next: string)
    requires IsChain(components, path) && path != [] && DependsOn(components, path[|path| - 1], next)
    ensures IsChain(components, path + [next])
  {
  }

  // ---------- Stuck means cyclic or incomplete; an order means neither ----------

  ghost function FullTable(components: seq<Component>): (table: map<string, Component>)
    ensures TableWithin(table, components) && table.Keys == Tags(components)
  {
    map t | t in Tags(components) :: var c :| c in components && c.tag == t; c
  }

  lemma StuckIsCyclicOrOpen(components: seq<Component>, started: set<string>, c: Component)
    requires Stuck(components, started) && c in components && c.tag !in started
    ensures !Closed(components) || !Acyclic(components)
  {
    var table := FullTable(components);
    LintIsTruthful(components, table, started, [c.tag], c);
    var report := Lint(table, started, [c.tag], c);
    if report.Circular? {
      var k :| 0 <= k < |report.path| && IsCycle(components, report.path[k..]);
    }
  }

  ghost function Position(order: seq<Component>, tag: string): (i: nat)
    requires tag in Tags(order)
    ensures i < |order| && order[i].tag == tag
  {
    var i :| 0 <= i < |order| && order[i].tag == tag; i
  }

  /** Along a chain the start positions strictly fall. */
  lemma {:induction false} ChainDescends(components: seq<Component>, order: seq<Component>, path: seq<string>, k: nat)
    requires DistinctTags(order) && DependenciesFirst(order) && (forall c :: c in components ==> c in order)
    requires IsChain(components, path) && k < |path| && path[0] in Tags(order)
    ensures path[k] in Tags(order) && Position(order, path[k]) <= Position(order, path[0]) - k
  {
    if k > 0 {
      ChainDescends(components, order, path, k - 1);
      EdgeDescends(components, order, path[k - 1], path[k]);
    }
  }

  lemma EdgeDescends(components: seq<Component>, order: seq<Component>, from: string, to: string)
    requires DistinctTags(order) && DependenciesFirst(order) && (forall c :: c in components ==> c in order)
    requires DependsOn(components, from, to)
    ensures from in Tags(order) && to in Tags(order) && Position(order, to) < Position(order, from)
  {
  }

  lemma OrderIsAcyclic(components: seq<Component>, order: seq<Component>)
    requires DistinctTags(order) && DependenciesFirst(order) && (forall c :: c in components ==> c in order)
    ensures Acyclic(components)
  {
    forall path ensures !IsCycle(components, path) {
      if IsCycle(components, path) {
        var last := path[|path| - 1];
        EdgeDescends(components, order, last, path[0]);
        ChainDescends(components, order, path, |path| - 1);
      }
    }
  }

  // ---------- Counting ----------

  lemma AppendTags(init: seq<Component>, c: Component)
    ensures Tags(init + [c]) == Tags(init) + {c.tag}
    ensures DistinctTags(init + [c]) <==> DistinctTags(init) && c.tag !in Tags(init)
  {
    var all := init + [c];
    assert all[|init|] == c && forall i :: 0 <= i < |init| ==> all[i] == init[i];
    if d :| d in init && d.tag == c.tag {
      var i :| 0 <= i < |init| && init[i] == d;
      assert all[i].tag == all[|init|].tag;
    }
  }

  lemma {:induction false} TagCount(components: seq<Component>)
    ensures |Tags(components)| <= |components|
    ensures |Tags(components)| == |components| <==> DistinctTags(components)
  {
    if components != [] {
      var init, c := components[..|components| - 1], components[|components| - 1];
      TagCount(init);
      assert components == init + [c];
      AppendTags(init, c);
      if c.tag in Tags(init) { assert Tags(components) == Tags(init); }
    }
  }

  lemma SubsetSize(a: set<string>, b: set<string>)
    requires a <= b
    ensures |a| <= |b| && (|a| == |b| ==> a == b)
  {
    assert b == a + (b - a);
  }

  /** What a list of Start calls looks like at any moment of the loop. */
  ghost predicate Progress(components: seq<Component>, started: set<string>, order: seq<Component>) {
    && started == Tags(order)
    && |started| == |order|
    && DistinctTags(order)
    && DependenciesFirst(order)
    && (forall c :: c in order ==> c in components)
  }

  lemma ProgressStep(components: seq<Component>, started: set<string>, order: seq<Component>, c: Component)
    requires Progress(components, started, order)
    requires c in components && c.tag !in started && !Waits(c, started)
    ensures Progress(components, started + {c.tag}, order + [c])
  {
    var next := order + [c];
    assert Tags(next) == Tags(order) + {c.tag};
    forall i, d | 0 <= i < |next| && d in next[i].dependencies
      ensures d in Tags(next[..i])
    {
      assert next[..i] == order[..i];
      if i == |order| { assert order[..i] == order; }
    }
  }

  lemma ProgressBound(components: seq<Component>, started: set<string>, order: seq<Component>)
    requires Progress(components, started, order)
    ensures |started| <= |components|
    ensures |started| == |components| ==> DistinctTags(components) && started == Tags(components)
  {
    SubsetSize(started, Tags(components));
    TagCount(components);
  }

  lemma CompleteOrder(components: seq<Component>, started: set<string>, order: seq<Component>)
    requires Progress(components, started, order) && |started| == |components|
    ensures DistinctTags(components) && Closed(components) && Acyclic(components)
    ensures forall c :: c in components ==> c in order
  {
    ProgressBound(components, started, order);
    forall c | c in components ensures c in order {
      assert c.tag in Tags(components) && c.tag in Tags(order);
      var o :| o in order && o.tag == c.tag;
    }
    OrderIsAcyclic(components, order);
    forall c, d | c in components && d in c.dependencies ensures d in Tags(components) {
      var i :| 0 <= i < |order| && order[i] == c;
      assert d in Tags(order[..i]);
    }
  }

  /** The first component that is not started. */
  ghost predicate FirstLeft(components: seq<Component>, started: set<string>, index: nat) {
    && index < |components| && components[index].tag !in started
    && forall k :: 0 <= k < index ==> components[k].tag in started
  }

  method FindUnstarted(components: seq<Component>, started: set<string>) returns (found: bool, index: nat)
    ensures found ==> FirstLeft(components, started, index)
    ensures !found ==> Tags(components) <= started
  {
    found, index := false, 0;
    while index < |components|
      invariant index <= |components|
      invariant forall k :: 0 <= k < index ==> components[k].tag in started
    {
      if components[index].tag !in started { found := true; return; }
      index := index + 1;
    }
  }

  /** Each of the first `n` components is started or waits. */
  ghost predicate Settled(components: seq<Component>, n: nat, started: set<string>) {
    forall k :: 0 <= k < n && k < |components| ==> components[k].tag in started || Waits(components[k], started)
  }

  lemma SettledIsStuck(components: seq<Component>, started: set<string>)
    requires Settled(components, |components|, started)
    ensures Stuck(components, started)
  {
  }

  lemma NoneFailsStep(order: seq<Component>, c: Component)
    requires NoneFails(order)
    ensures (order + [c])[..|order|] == order
    ensures !c.startFails ==> NoneFails(order + [c])
  {
  }

  /** A first component without dependencies is started first. */
  predicate HeadFirst(components: seq<Component>, order: seq<Component>) {
    components != [] && components[0].dependencies == [] ==> order != [] && order[0] == components[0]
  }

  /** What starts before a component without dependencies is listed before it: such components start in list order. */
  ghost predicate FreeInOrder(components: seq<Component>, order: seq<Component>) {
    forall i, k ::
      0 <= i < |components| && components[i].dependencies == [] && 0 <= k < |order| && order[k] !in components[..i] ==>
        components[i].tag in Tags(order[..k + 1])
  }

  ghost predicate FreeStarted(components: seq<Component>, n: nat, started: set<string>) {
    forall i :: 0 <= i < n && i < |components| && components[i].dependencies == [] ==> components[i].tag in started
  }

  lemma FreeInOrderStep(components: seq<Component>, order: seq<Component>, n: nat)
    requires FreeInOrder(components, order) && n < |components| && FreeStarted(components, n, Tags(order))
    ensures FreeInOrder(components, order + [components[n]])
  {
    var next := order + [components[n]];
    forall i, k | 0 <= i < |components| && components[i].dependencies == [] && 0 <= k < |next|
                  && next[k] !in components[..i]
      ensures components[i].tag in Tags(next[..k + 1])
    {
      if k < |order| {
        assert next[..k + 1] == order[..k + 1];
      } else {
        assert next[..k + 1] == next;
        AppendTags(order, components[n]);
        assert forall j :: 0 <= j < i ==> components[..i][j] == components[j];
      }
    }
  }

  lemma FreeStartedStep(components: seq<Component>, n: nat, started: set<string>, now: set<string>)
    requires FreeStarted(components, n, started) && started <= now && n < |components|
    requires components[n].tag in now || Waits(components[n], now)
    ensures FreeStarted(components, n + 1, now)
  {
  }

  /** What a pass keeps from component to component. */
  ghost predicate Underway(components: seq<Component>, n: nat, started: set<string>, order: seq<Component>) {
    && Progress(components, started, order) && NoneFails(order)
    && ((n == 0 && order == []) || HeadFirst(components, order))
    && FreeInOrder(components, order) && FreeStarted(components, n, started)
  }

  lemma StartedOne(components: seq<Component>, started: set<string>, order: seq<Component>, n: nat)
    requires Underway(components, n, started, order)
    requires n < |components| && components[n].tag !in started && !Waits(components[n], started)
    ensures var c := components[n];
            && Progress(components, started + {c.tag}, order + [c]) && |started + {c.tag}| == |started| + 1
            && HeadFirst(components, order + [c]) && FreeInOrder(components, order + [c])
            && (order + [c])[..|order|] == order
            && (!c.startFails ==> Underway(components, n + 1, started + {c.tag}, order + [c]))
  {
    ProgressStep(components, started, order, components[n]);
    NoneFailsStep(order, components[n]);
    FreeInOrderStep(components, order, n);
    FreeStartedStep(components, n, started, started + {components[n].tag});
  }

  lemma SkippedOne(components: seq<Component>, started: set<string>, order: seq<Component>, n: nat)
    requires Underway(components, n, started, order)
    requires n < |components| && (components[n].tag in started || Waits(components[n], started))
    ensures Underway(components, n + 1, started, order)
  {
    FreeStartedStep(components, n, started, started);
  }

  /** One pass of the loop labelled `startOne`. */
  method StartPass(components: seq<Component>, started0: set<string>, order0: seq<Component>)
    returns (started: set<string>, order: seq<Component>, canContinue: bool, failed: bool)
    requires Underway(components, 0, started0, order0)
    ensures Progress(components, started, order) && HeadFirst(components, order) && FreeInOrder(components, order)
    ensures failed ==> order != [] && order[|order| - 1].startFails && NoneFails(order[..|order| - 1])
    ensures !failed ==> NoneFails(order) && |started0| <= |started| && (canContinue ==> |started0| < |started|)
    ensures !failed && !canContinue ==> Stuck(components, started)
  {
    started, order, canContinue, failed := started0, order0, false, false;
    var i := 0;
    while i < |components|
      invariant i <= |components| && Underway(components, i, started, order)
      invariant |started0| <= |started| && (canContinue ==> |started0| < |started|)
      invariant !canContinue ==> Settled(components, i, started)
    {
      var c := components[i];
      if c.tag !in started && !Waits(c, started) {
        StartedOne(components, started, order, i);
        started, order, canContinue := started + {c.tag}, order + [c], true;
        if c.startFails {
          failed := true;
          return;
        }
      } else {
        SkippedOne(components, started, order, i);
      }
      i := i + 1;
    }
    if !canContinue { SettledIsStuck(components, started); }
  }

  /** The reported path begins with this tag; a report of a missing dependency carries no path. */
  predicate StartsAt(report: Outcome, tag: string) {
    report.Circular? ==> report.path != [] && report.path[0] == tag
  }

  lemma {:induction false} LintKeepsPath(
    table: map<string, Component>, started: set<string>, path: seq<string>, current: Component)
    ensures var r := Lint(table, started, path, current); r.Circular? ==> path <= r.path
    decreases table.Keys - (set t | t in path)
  {
    var problem := FirstUnstarted(current.dependencies, started);
    if problem !in path && problem in table {
      assert (table.Keys - (set t | t in path)) - {problem} == table.Keys - (set t | t in path + [problem]);
      LintKeepsPath(table, started, path + [problem], table[problem]);
    }
  }

  /** What the stuck loop returns: the lint report of the first component left. */
  method Diagnose(components: seq<Component>, table: map<string, Component>, started: set<string>)
    returns (report: Outcome)
    requires Stuck(components, started) && started <= Tags(components) && |started| != |components|
    ensures report.NilDereference? ==> !DistinctTags(components)
    ensures report.NilDereference? <==> started == Tags(components)
    ensures !report.NilDereference? ==> report.Circular? || report.NotFound?
    ensures !report.NilDereference? ==>
              exists i: nat :: FirstLeft(components, started, i) && StartsAt(report, components[i].tag)
    ensures !report.NilDereference? ==> !Closed(components) || !Acyclic(components)
    ensures !report.NilDereference? && TableWithin(table, components) ==>
              Truthful(components, table, started, report)
  {
    var found, index := FindUnstarted(components, started);
    if !found {
      assert started == Tags(components);
      TagCount(components);
      return NilDereference;
    }
    var current := components[index];
    StuckIsCyclicOrOpen(components, started, current);
    if TableWithin(table, components) {
      LintIsTruthful(components, table, started, [current.tag], current);
    }
    LintKeepsPath(table, started, [current.tag], current);
    report := Lint(table, started, [current.tag], current);
  }

  /** How the start loop ends; `order` lists the components whose Start was called, in call order. */
  ghost predicate Reported(components: seq<Component>, outcome: Outcome, order: seq<Component>) {
    // success exactly on a complete, acyclic, well-behaved list with distinct tags
    && (outcome.Started? <==>
          DistinctTags(components) && Closed(components) && Acyclic(components) && NoneFails(components))
    && (outcome.Started? ==> |order| == |components| && forall c :: c in components ==> c in order)
    // every Start call comes once, on a listed component, after the calls of all its dependencies
    && DistinctTags(order) && DependenciesFirst(order) && (forall c :: c in order ==> c in components)
    // the first failing Start ends the loop
    && (outcome.StartFailed? ==>
          && order != [] && order[|order| - 1].startFails && order[|order| - 1].tag == outcome.failed
          && NoneFails(order[..|order| - 1]))
    && (!outcome.StartFailed? ==> NoneFails(order))
    // otherwise nothing startable was left
    && (outcome.Circular? || outcome.NotFound? ==>
          Stuck(components, Tags(order)) && (!Closed(components) || !Acyclic(components)))
    // a nil dereference: everything was started, by tags, yet the count of a list with a repeated tag is not reached
    && (outcome.NilDereference? <==>
          !DistinctTags(components) && Tags(order) == Tags(components) && NoneFails(order))
    && HeadFirst(components, order) && FreeInOrder(components, order)
  }

  /** `startOutbounds` and `startTransports`; a report is true whenever the table holds listed components. */
  method StartAll(components: seq<Component>, table: map<string, Component>)
    returns (outcome: Outcome, order: seq<Component>)
    ensures Reported(components, outcome, order)
    ensures (outcome.Circular? || outcome.NotFound?) && TableWithin(table, components) ==>
              Truthful(components, table, Tags(order), outcome)
    ensures outcome.Circular? || outcome.NotFound? ==>
              exists i: nat :: FirstLeft(components, Tags(order), i) && StartsAt(outcome, components[i].tag)
  {
    var started: set<string> := {};
    order := [];
    while true
      invariant Underway(components, 0, started, order)
      decreases |components| - |started|
    {
      ProgressBound(components, started, order);
      var canContinue, failed;
      ghost var before := |started|;
      started, order, canContinue, failed := StartPass(components, started, order);
      if failed {
        return StartFailed(order[|order| - 1].tag), order;
      }
      ProgressBound(components, started, order);
      if |started| == |components| {
        CompleteOrder(components, started, order);
        return Started, order;
      }
      if !canContinue {
        outcome := Diagnose(components, table, started);
        return;
      }
      assert before < |started|;
    }
  }

  // ---------- A first component that shadows another of its tag ----------

  function Omitting(components: seq<Component>, i: nat): seq<Component>
    requires i < |components|
  {
    components[..i] + components[i + 1..]
  }

  lemma OmittingMembers(tail: seq<Component>, i: nat)
    requires DistinctTags(tail) && i < |tail|
    ensures DistinctTags(Omitting(tail, i))
    ensures forall c :: c in Omitting(tail, i) <==> c in tail && c.tag != tail[i].tag
  {
    var rest := Omitting(tail, i);
    forall c | c in tail && c.tag != tail[i].tag ensures c in rest {
      var k :| 0 <= k < |tail| && tail[k] == c;
      assert rest[if k < i then k else k - 1] == c;
    }
  }

  lemma ShadowedParts(head: Component, tail: seq<Component>, i: nat)
    requires DistinctTags(tail) && i < |tail| && tail[i].tag == head.tag
    ensures var all, rest := [head] + tail, [head] + Omitting(tail, i);
            && DistinctTags(rest) && Tags(rest) == Tags(all)
            && (forall c :: c in rest ==> c in all) && (forall c :: c in all ==> c in rest || c.tag == head.tag)
  {
    OmittingMembers(tail, i);
    var all, rest := [head] + tail, [head] + Omitting(tail, i);
    assert forall c :: c in rest <==> c == head || c in Omitting(tail, i);
    assert forall c :: c in all <==> c == head || c in tail;
  }

  /** What was started belongs to the list without the shadowed component. */
  lemma ShadowedNeverStarts(head: Component, tail: seq<Component>, i: nat, order: seq<Component>)
    requires DistinctTags(tail) && i < |tail| && tail[i].tag == head.tag
    requires order != [] && order[0] == head && DistinctTags(order) && forall c :: c in order ==> c in [head] + tail
    ensures forall c :: c in order ==> c in [head] + Omitting(tail, i)
  {
    ShadowedParts(head, tail, i);
    forall c | c in order ensures c in [head] + Omitting(tail, i) {
      if c.tag == head.tag { SameTag(order, c, head); }
    }
  }

  lemma EverythingStarted(rest: seq<Component>, order: seq<Component>)
    requires DistinctTags(rest) && DistinctTags(order) && DependenciesFirst(order) && NoneFails(order)
    requires Tags(order) == Tags(rest) && forall c :: c in order ==> c in rest
    ensures Closed(rest) && Acyclic(rest) && NoneFails(rest)
  {
    TagCount(rest);
    TagCount(order);
    CompleteOrder(rest, Tags(order), order);
  }

  /**
   A first component without dependencies keeps a later one of its tag from ever being started; the loop then
   ends in a nil dereference exactly when the list without that one is complete, acyclic and well-behaved.
   */
  lemma ShadowedStartIff(head: Component, tail: seq<Component>, i: nat, outcome: Outcome, order: seq<Component>)
    requires DistinctTags(tail) && i < |tail| && tail[i].tag == head.tag
    requires head.dependencies == [] && Reported([head] + tail, outcome, order)
    ensures var rest := [head] + Omitting(tail, i);
            outcome.NilDereference? <==> Closed(rest) && Acyclic(rest) && NoneFails(rest)
  {
    var all, rest := [head] + tail, [head] + Omitting(tail, i);
    assert all[0] == head && all[1 + i].tag == head.tag;
    ShadowedParts(head, tail, i);
    ShadowedNeverStarts(head, tail, i, order);
    if outcome.NilDereference? {
      EverythingStarted(rest, order);
    } else if outcome.StartFailed? {
      assert order[|order| - 1] in rest;
    } else {
      var tag :| tag in Tags(rest) && tag !in Tags(order);
      var c :| c in rest && c.tag == tag;
      assert Stuck(rest, Tags(order));
      StuckIsCyclicOrOpen(rest, Tags(order), c);
    }
  }

  // ---------- Endpoints in the list, outbounds in the table ----------

  // The outbound manager starts outbounds and endpoints as one list, but its table holds the outbounds only.

  ghost predicate WaitsFirstFor(components: seq<Component>, started: set<string>, from: string, to: string) {
    exists c :: c in components && c.tag == from && to == FirstUnstarted(c.dependencies, started)
  }

  ghost predicate NoRepeat(tags: seq<string>) {
    forall i, j :: 0 <= i < j < |tags| ==> tags[i] != tags[j]
  }

  /** From each tag to the first dependency it waits for, without coming back. */
  ghost predicate IsWalk(components: seq<Component>, started: set<string>, walk: seq<string>) {
    && (forall i :: 0 <= i < |walk| - 1 ==> WaitsFirstFor(components, started, walk[i], walk[i + 1]))
    && NoRepeat(walk)
  }

  /** The walk goes from its start over outbounds to an endpoint. */
  ghost predicate ReachesEndpoint(outs: seq<Component>, ends: seq<Component>, started: set<string>, walk: seq<string>) {
    && |walk| >= 2 && IsWalk(outs + ends, started, walk)
    && (forall i :: 1 <= i < |walk| - 1 ==> walk[i] in Tags(outs))
    && walk[|walk| - 1] in Tags(ends)
  }

  ghost predicate MeetsEndpoint(outs: seq<Component>, ends: seq<Component>, started: set<string>, from: string) {
    exists walk :: ReachesEndpoint(outs, ends, started, walk) && walk[0] == from
  }

  ghost predicate OutboundsOnly(outs: seq<Component>, ends: seq<Component>, table: map<string, Component>) {
    DistinctTags(outs + ends) && TableWithin(table, outs) && table.Keys == Tags(outs)
  }

  lemma TagsOfBoth(outs: seq<Component>, ends: seq<Component>)
    requires DistinctTags(outs + ends)
    ensures Tags(outs + ends) == Tags(outs) + Tags(ends) && Tags(outs) !! Tags(ends)
  {
    assert forall c :: c in outs + ends <==> c in outs || c in ends;
    forall c, d | c in outs && d in ends ensures c.tag != d.tag {
      var i :| 0 <= i < |outs| && outs[i] == c;
      var j :| 0 <= j < |ends| && ends[j] == d;
      assert (outs + ends)[i] == c && (outs + ends)[|outs| + j] == d;
    }
  }

  lemma WalkExtends(components: seq<Component>, started: set<string>, walk: seq<string>, next: string)
    requires IsWalk(components, started, walk) && walk != [] && next !in walk
    requires WaitsFirstFor(components, started, walk[|walk| - 1], next)
    ensures IsWalk(components, started, walk + [next])
  {
  }

  /** A report that names an endpoint ends a walk to it. */
  lemma {:induction false} ReportIsWalk(
    outs: seq<Component>, ends: seq<Component>, table: map<string, Component>, started: set<string>,
    path: seq<string>, current: Component)
    requires OutboundsOnly(outs, ends, table) && current in outs + ends
    requires path != [] && path[|path| - 1] == current.tag && IsWalk(outs + ends, started, path)
    requires forall i :: 1 <= i < |path| ==> path[i] in Tags(outs)
    requires var report := Lint(table, started, path, current); report.NotFound? && report.dependency in Tags(ends)
    ensures MeetsEndpoint(outs, ends, started, path[0])
    decreases table.Keys - (set t | t in path)
  {
    var problem := FirstUnstarted(current.dependencies, started);
    var longer := path + [problem];
    assert WaitsFirstFor(outs + ends, started, current.tag, problem);
    WalkExtends(outs + ends, started, path, problem);
    if problem !in table {
      assert ReachesEndpoint(outs, ends, started, longer) && longer[0] == path[0];
    } else {
      assert (table.Keys - (set t | t in path)) - {problem} == table.Keys - (set t | t in longer);
      ReportIsWalk(outs, ends, table, started, longer, table[problem]);
    }
  }

  lemma SameTag(components: seq<Component>, c: Component, d: Component)
    requires DistinctTags(components) && c in components && d in components && c.tag == d.tag
    ensures c == d
  {
  }

  lemma WalkStep(components: seq<Component>, started: set<string>, walk: seq<string>, k: nat, current: Component)
    requires DistinctTags(components) && IsWalk(components, started, walk)
    requires 1 <= k < |walk| && current in components && current.tag == walk[k - 1]
    ensures FirstUnstarted(current.dependencies, started) == walk[k] && walk[k] !in walk[..k]
  {
    assert WaitsFirstFor(components, started, walk[k - 1], walk[k - 1 + 1]);
    var c :| c in components && c.tag == walk[k - 1] && walk[k] == FirstUnstarted(c.dependencies, started);
    SameTag(components, c, current);
  }

  ghost predicate TracedAt(table: map<string, Component>, started: set<string>, from: string, to: string) {
    from in table && FirstUnstarted(table[from].dependencies, started) == to
  }

  /** What is left of a walk, as the diagnosis sees it: only the last tag is not in the table. */
  ghost predicate Traced(table: map<string, Component>, started: set<string>, rest: seq<string>) {
    && rest != [] && rest[|rest| - 1] !in table
    && (forall i :: 0 <= i < |rest| - 1 ==> TracedAt(table, started, rest[i], rest[i + 1]))
  }

  lemma WalkIsTraced(
    outs: seq<Component>, ends: seq<Component>, table: map<string, Component>, started: set<string>, walk: seq<string>)
    requires OutboundsOnly(outs, ends, table) && ReachesEndpoint(outs, ends, started, walk)
    ensures Traced(table, started, walk[1..])
  {
    TagsOfBoth(outs, ends);
    forall i | 1 <= i < |walk| - 1 ensures TracedAt(table, started, walk[i], walk[i + 1]) {
      assert walk[i] in table;
      WalkStep(outs + ends, started, walk, i + 1, table[walk[i]]);
    }
  }

  lemma NextIsNew(path: seq<string>, rest: seq<string>)
    requires rest != [] && NoRepeat(path + rest)
    ensures rest[0] !in path && NoRepeat(path + [rest[0]] + rest[1..])
  {
    assert (path + rest)[|path|] == rest[0];
    assert forall i :: 0 <= i < |path| ==> (path + rest)[i] == path[i];
    assert path + [rest[0]] + rest[1..] == path + rest;
  }

  lemma {:induction false} TracedIsReported(
    table: map<string, Component>, started: set<string>, path: seq<string>, rest: seq<string>, current: Component)
    requires Traced(table, started, rest) && NoRepeat(path + rest)
    requires FirstUnstarted(current.dependencies, started) == rest[0]
    ensures var report := Lint(table, started, path, current); report.NotFound? && report.dependency == rest[|rest| - 1]
    decreases |rest|
  {
    NextIsNew(path, rest);
    if |rest| > 1 {
      assert TracedAt(table, started, rest[0], rest[1]);
      TracedIsReported(table, started, path + [rest[0]], rest[1..], table[rest[0]]);
    }
  }

  lemma WalkIsReported(
    outs: seq<Component>, ends: seq<Component>, table: map<string, Component>, started: set<string>, walk: seq<string>,
    current: Component)
    requires OutboundsOnly(outs, ends, table) && current in outs + ends
    requires ReachesEndpoint(outs, ends, started, walk) && walk[0] == current.tag
    ensures var report := Lint(table, started, [current.tag], current);
            report.NotFound? && report.dependency in Tags(ends)
  {
    assert [current.tag] + walk[1..] == walk;
    WalkStep(outs + ends, started, walk, 1, current);
    WalkIsTraced(outs, ends, table, started, walk);
    TracedIsReported(table, started, [current.tag], walk[1..], current);
  }

  lemma ReportNamesEndpointIff(
    outs: seq<Component>, ends: seq<Component>, table: map<string, Component>, started: set<string>, current: Component)
    requires OutboundsOnly(outs, ends, table) && current in outs + ends
    ensures var report := Lint(table, started, [current.tag], current);
            report.NotFound? && report.dependency in Tags(ends) <==> MeetsEndpoint(outs, ends, started, current.tag)
  {
    var report := Lint(table, started, [current.tag], current);
    if report.NotFound? && report.dependency in Tags(ends) {
      ReportIsWalk(outs, ends, table, started, [current.tag], current);
    }
    if walk :| ReachesEndpoint(outs, ends, started, walk) && walk[0] == current.tag {
      WalkIsReported(outs, ends, table, started, walk, current);
    }
  }

  lemma ReportIsAbsent(
    outs: seq<Component>, ends: seq<Component>, table: map<string, Component>, started: set<string>, current: Component)
    requires OutboundsOnly(outs, ends, table) && Stuck(outs + ends, started)
    requires current in outs + ends && current.tag !in started
    ensures var report := Lint(table, started, [current.tag], current);
            report.NotFound? ==>
              report.dependency !in Tags(outs) && DependsOn(outs + ends, report.dependent, report.dependency)
  {
    assert TableWithin(table, outs + ends);
    LintIsTruthful(outs + ends, table, started, [current.tag], current);
  }

  /**
   A listed tag is reported missing exactly when it is an endpoint's, and that happens exactly when the walk
   over first unstarted dependencies meets an endpoint before it repeats. A complete list is then reported
   as incomplete.
   */
  lemma EndpointReportedMissingIff(
    outs: seq<Component>, ends: seq<Component>, table: map<string, Component>, started: set<string>, current: Component)
    requires OutboundsOnly(outs, ends, table) && Stuck(outs + ends, started)
    requires current in outs + ends && current.tag !in started
    ensures var report := Lint(table, started, [current.tag], current);
            && (report.NotFound? ==> (report.dependency in Tags(outs + ends) <==> report.dependency in Tags(ends)))
            && (report.NotFound? && report.dependency in Tags(ends) <==>
                  MeetsEndpoint(outs, ends, started, current.tag))
            && (Closed(outs + ends) ==> (report.NotFound? <==> MeetsEndpoint(outs, ends, started, current.tag)))
  {
    TagsOfBoth(outs, ends);
    ReportIsAbsent(outs, ends, table, started, current);
    ReportNamesEndpointIff(outs, ends, table, started, current);
  }

  /** So it never happens while nothing depends on an endpoint. */
  lemma NoEndpointNeededNoneMissing(
    outs: seq<Component>, ends: seq<Component>, table: map<string, Component>, started: set<string>, current: Component)
    requires OutboundsOnly(outs, ends, table) && Stuck(outs + ends, started)
    requires current in outs + ends && current.tag !in started
    requires forall c, d :: c in outs + ends && d in c.dependencies ==> d !in Tags(ends)
    ensures !MeetsEndpoint(outs, ends, started, current.tag)
    ensures var report := Lint(table, started, [current.tag], current);
            report.NotFound? ==> report.dependency !in Tags(outs + ends)
  {
    ReportIsAbsent(outs, ends, table, started, current);
    EndpointReportedMissingIff(outs, ends, table, started, current);
  }

  lemma EndpointCycle(all: seq<Component>, o: Component, e: Component)
    requires all == [o] + [e] && o.tag != e.tag && o.dependencies == [e.tag] && e.dependencies == [o.tag]
    ensures DistinctTags(all) && Stuck(all, {}) && IsCycle(all, [o.tag, e.tag])
  {
    assert o in all && e in all;
    assert e.tag in o.dependencies && o.tag in e.dependencies;
    assert DependsOn(all, o.tag, e.tag) && DependsOn(all, e.tag, o.tag);
  }

  /** Any outbound and endpoint that depend on each other: a cycle, reported as a missing dependency. */
  lemma EndpointCycleReportedMissing(o: Component, e: Component)
    requires o.tag != e.tag && o.dependencies == [e.tag] && e.dependencies == [o.tag]
    ensures OutboundsOnly([o], [e], map[o.tag := o]) && Stuck([o] + [e], {}) && IsCycle([o] + [e], [o.tag, e.tag])
    ensures Lint(map[o.tag := o], {}, [o.tag], o) == NotFound(e.tag, o.tag)
  {
    EndpointCycle([o] + [e], o, e);
    FirstUnstartedIsFirst(o.dependencies, {}, 0);
  }
}
