/**
 The new-mode rule interpreter: a walk over the runtime rules that carries query options and the response
 of the latest evaluate action. Rule matching and the DNS client are functions of the world.
 */
module DnsExchange {
  import opened Wrappers
  import opened DnsRules

  type Message = nat

  datatype Transport = Transport(tag: string, fakeIP: bool)

  datatype QueryOptions = QueryOptions(
    strategy: Strategy, disableCache: bool, rewriteTTL: Option<nat>, clientSubnet: Option<string>)

  datatype RuntimeAction =
    | NoAction
    | RouteTo(server: string, options: RouteOptions)
    | EvaluateWith(server: string, options: RouteOptions)
    | RespondNow
    | ApplyOptions(options: RouteOptions)
    | RejectWith(rejectMethod: RejectMethod)
    | Answer(message: Message)

  /** `NewDNSRuleAction`; an absent action stays absent and then does nothing. */
  function Runtime(action: Action): RuntimeAction {
    match action.kind
    case Unset => NoAction
    case Route => RouteTo(action.server, action.route)
    case Evaluate => EvaluateWith(action.server, action.route)
    case Respond => RespondNow
    case OptionsOnly => ApplyOptions(action.options)
    case Reject => RejectWith(action.reject)
    case Predefined => Answer(action.answer)
  }

  /**
   What the walk depends on: `matches` tells whether a rule matches given the evaluated response,
   `exchange` what the client returns for the query a rule makes (`None` is an error).
   */
  datatype World = World(
    matches: (nat, Option<Message>) -> bool,
    exchange: (nat, Transport, QueryOptions) -> Option<Message>,
    transports: map<string, Transport>,
    fallback: Transport,
    defaultStrategy: Strategy)

  /** `applyDNSRouteOptions`; the source never honours the strategy here. */
  function Overlay(base: QueryOptions, o: RouteOptions, honour: bool): QueryOptions {
    QueryOptions(
      if honour && o.strategy != AsIs then o.strategy else base.strategy,
      base.disableCache || o.disableCache,
      if o.rewriteTTL.Some? then o.rewriteTTL else base.rewriteTTL,
      if o.clientSubnet.Some? then o.clientSubnet else base.clientSubnet)
  }

  function Defaulted(w: World, options: QueryOptions): QueryOptions {
    if options.strategy == AsIs then options.(strategy := w.defaultStrategy) else options
  }

  /** What is carried from rule to rule. */
  datatype Memory = Memory(options: QueryOptions, evaluated: Option<(Message, Transport)>) {
    function Response(): Option<Message> {
      if evaluated.Some? then Some(evaluated.value.0) else None
    }
  }

  datatype Outcome =
    | Exchanged(transport: Transport, response: Option<Message>)
    | Responded(message: Message, from: Transport)
    | RespondMissing
    | Refused
    | Dropped
    | Answered(message: Message)

  /** A query handed to the client, by the rule with that number or, after the last rule, by the default server. */
  datatype Query = Query(rule: nat, transport: Transport, options: QueryOptions)

  datatype Visit = Visit(memory: Memory, matched: bool)

  datatype Run = Run(outcome: Outcome, queries: seq<Query>, visits: seq<Visit>)

  function Ask(w: World, q: Query): Option<Message> {
    w.exchange(q.rule, q.transport, q.options)
  }

  // ---------- One rule ----------

  function EvaluateQuery(
    w: World, k: nat, server: string, o: RouteOptions, options: QueryOptions, honour: bool): Option<Query>
  {
    if server !in w.transports then None
    else Some(Query(k, w.transports[server], Defaulted(w, Overlay(options, o, honour))))
  }

  /** `resolveDNSRoute`: missing servers and, where not allowed, fakeip servers give no query. */
  function RouteQuery(
    w: World, k: nat, server: string, o: RouteOptions, options: QueryOptions, allowFakeIP: bool, honour: bool)
    : Option<Query>
  {
    if server !in w.transports then None
    else
      var t := w.transports[server];
      if t.fakeIP && !allowFakeIP then None
      else
        var own := Overlay(options, o, honour);
        Some(Query(k, t, Defaulted(w, own.(disableCache := own.disableCache || t.fakeIP))))
  }

  /** The query made by rule `k` when visited. */
  function OwnQuery(w: World, action: RuntimeAction, k: nat, v: Visit, allowFakeIP: bool, honour: bool): Option<Query> {
    if !v.matched then None
    else match action
      case EvaluateWith(server, o) => EvaluateQuery(w, k, server, o, v.memory.options, honour)
      case RouteTo(server, o) => RouteQuery(w, k, server, o, v.memory.options, allowFakeIP, honour)
      case _ => None
  }

  /** What an evaluate action leaves behind: its response, or nothing when the server is missing or fails. */
  function Evaluated(w: World, q: Option<Query>): Option<(Message, Transport)> {
    if q.None? || Ask(w, q.value).None? then None else Some((Ask(w, q.value).value, q.value.transport))
  }

  /** The memory handed to the next rule. */
  function MemoryAfter(w: World, action: RuntimeAction, k: nat, v: Visit, honour: bool): Memory {
    if !v.matched then v.memory
    else match action
      case ApplyOptions(o) => v.memory.(options := Overlay(v.memory.options, o, honour))
      case EvaluateWith(_, _) => v.memory.(evaluated := Evaluated(w, OwnQuery(w, action, k, v, true, honour)))
      case _ => v.memory
  }

  /** The outcome if the walk ends at this rule. */
  function EndsWith(
    w: World, action: RuntimeAction, k: nat, v: Visit, allowFakeIP: bool, honour: bool): Option<Outcome>
  {
    if !v.matched then None
    else match action
      case RespondNow =>
        Some(if v.memory.evaluated.None? then RespondMissing
             else Responded(v.memory.evaluated.value.0, v.memory.evaluated.value.1))
      case RouteTo(_, _) =>
        var q := OwnQuery(w, action, k, v, allowFakeIP, honour);
        if q.None? then None else Some(Exchanged(q.value.transport, Ask(w, q.value)))
      case RejectWith(DefaultMethod) => Some(Refused)
      case RejectWith(Drop) => Some(Dropped)
      case Answer(message) => Some(Answered(message))
      case _ => None
  }

  function AsSeq<T>(o: Option<T>): seq<T> {
    if o.Some? then [o.value] else []
  }

  function FallbackQuery(w: World, rules: nat, m: Memory): Query {
    Query(rules, w.fallback, Defaulted(w, m.options))
  }

  // ---------- The walk ----------

  function Interpret(w: World, actions: seq<RuntimeAction>, k: nat, m: Memory, allowFakeIP: bool, honour: bool): Run
    requires k <= |actions|
    decreases |actions| - k
  {
    if k == |actions| then
      var q := FallbackQuery(w, k, m);
      Run(Exchanged(q.transport, Ask(w, q)), [q], [])
    else
      var v := Visit(m, w.matches(k, m.Response()));
      var own := AsSeq(OwnQuery(w, actions[k], k, v, allowFakeIP, honour));
      var end := EndsWith(w, actions[k], k, v, allowFakeIP, honour);
      if end.Some? then Run(end.value, own, [v])
      else
        var rest := Interpret(w, actions, k + 1, MemoryAfter(w, actions[k], k, v, honour), allowFakeIP, honour);
        Run(rest.outcome, own + rest.queries, [v] + rest.visits)
  }

  /** The switch over the action of a matched rule: the carried memory, the query made and the outcome, if any. */
  method TakeAction(w: World, action: RuntimeAction, k: nat, m: Memory, allowFakeIP: bool)
    returns (next: Memory, query: Option<Query>, end: Option<Outcome>)
    ensures next == MemoryAfter(w, action, k, Visit(m, true), false)
    ensures query == OwnQuery(w, action, k, Visit(m, true), allowFakeIP, false)
    ensures end == EndsWith(w, action, k, Visit(m, true), allowFakeIP, false)
  {
    next, query, end := m, None, None;
    match action
    case NoAction =>
    case ApplyOptions(o) =>
      next := m.(options := Overlay(m.options, o, false));
    case EvaluateWith(server, o) =>
      if server !in w.transports {
        next := m.(evaluated := None);
      } else {
        var q := Query(k, w.transports[server], Defaulted(w, Overlay(m.options, o, false)));
        query := Some(q);
        var answer := Ask(w, q);
        next := m.(evaluated := if answer.None? then None else Some((answer.value, q.transport)));
      }
    case RespondNow =>
      end := Some(if m.evaluated.None? then RespondMissing else Responded(m.evaluated.value.0, m.evaluated.value.1));
    case RouteTo(server, o) =>
      if server in w.transports {
        var t := w.transports[server];
        if !(t.fakeIP && !allowFakeIP) {
          var own := Overlay(m.options, o, false);
          if t.fakeIP { own := own.(disableCache := true); }
          var q := Query(k, t, Defaulted(w, own));
          query, end := Some(q), Some(Exchanged(t, Ask(w, q)));
        }
      }
    case RejectWith(rejectMethod) =>
      if rejectMethod.DefaultMethod? { end := Some(Refused); }
      if rejectMethod.Drop? { end := Some(Dropped); }
    case Answer(message) =>
      end := Some(Answered(message));
  }

  /** `exchangeWithRules`: `queries` and `visits` record the client calls and the rules looked at. */
  method ExchangeWithRules(w: World, actions: seq<RuntimeAction>, options: QueryOptions, allowFakeIP: bool)
    returns (outcome: Outcome, queries: seq<Query>, ghost visits: seq<Visit>)
    ensures outcome == Interpret(w, actions, 0, Memory(options, None), allowFakeIP, false).outcome
    ensures queries == Interpret(w, actions, 0, Memory(options, None), allowFakeIP, false).queries
    ensures visits == Interpret(w, actions, 0, Memory(options, None), allowFakeIP, false).visits
  {
    var memory := Memory(options, None);
    queries, visits := [], [];
    ghost var whole := Interpret(w, actions, 0, memory, allowFakeIP, false);
    for k := 0 to |actions|
      invariant whole == Prepended(queries, visits, Interpret(w, actions, k, memory, allowFakeIP, false))
    {
      var matched := w.matches(k, memory.Response());
      ghost var v := Visit(memory, matched);
      InterpretStep(w, actions, k, memory, allowFakeIP, queries, visits);
      visits := visits + [v];
      if matched {
        var next, query, end := TakeAction(w, actions[k], k, memory, allowFakeIP);
        queries := queries + AsSeq(query);
        if end.Some? { return end.value, queries, visits; }
        memory := next;
      } else {
        assert queries + [] == queries;
      }
    }
    var q := Query(|actions|, w.fallback, Defaulted(w, memory.options));
    outcome := Exchanged(w.fallback, Ask(w, q));
    queries := queries + [q];
    assert visits + [] == visits;
  }

  lemma InterpretStep(
    w: World, actions: seq<RuntimeAction>, k: nat, m: Memory, allowFakeIP: bool, queries: seq<Query>,
    visits: seq<Visit>)
    requires k < |actions|
    ensures var v := Visit(m, w.matches(k, m.Response()));
            var own := AsSeq(OwnQuery(w, actions[k], k, v, allowFakeIP, false));
            var end := EndsWith(w, actions[k], k, v, allowFakeIP, false);
            Prepended(queries, visits, Interpret(w, actions, k, m, allowFakeIP, false)) ==
            if end.Some? then Run(end.value, queries + own, visits + [v])
            else Prepended(queries + own, visits + [v],
                           Interpret(w, actions, k + 1, MemoryAfter(w, actions[k], k, v, false), allowFakeIP, false))
  {
  }

  ghost function Prepended(queries: seq<Query>, visits: seq<Visit>, rest: Run): Run {
    Run(rest.outcome, queries + rest.queries, visits + rest.visits)
  }

  // ---------- What a run says about each rule ----------

  /** The visited rules are a prefix; each hands its memory to the next, and only the last may end the walk. */
  ghost predicate Coherent(
    w: World, actions: seq<RuntimeAction>, k: nat, m: Memory, allowFakeIP: bool, honour: bool, run: Run)
  {
    var n := |run.visits|;
    && k + n <= |actions|
    && (n > 0 ==> run.visits[0].memory == m)
    && (forall i :: 0 <= i < n ==> run.visits[i].matched == w.matches(k + i, run.visits[i].memory.Response()))
    && (forall i :: 0 <= i < n - 1 ==>
          && EndsWith(w, actions[k + i], k + i, run.visits[i], allowFakeIP, honour).None?
          && run.visits[i + 1].memory == MemoryAfter(w, actions[k + i], k + i, run.visits[i], honour))
  }

  lemma {:induction false} RunIsCoherent(
    w: World, actions: seq<RuntimeAction>, k: nat, m: Memory, allowFakeIP: bool, honour: bool)
    requires k <= |actions|
    ensures Coherent(w, actions, k, m, allowFakeIP, honour, Interpret(w, actions, k, m, allowFakeIP, honour))
    decreases |actions| - k
  {
    if k < |actions| {
      var v := Visit(m, w.matches(k, m.Response()));
      if EndsWith(w, actions[k], k, v, allowFakeIP, honour).None? {
        var after := MemoryAfter(w, actions[k], k, v, honour);
        RunIsCoherent(w, actions, k + 1, after, allowFakeIP, honour);
        CoherentStep(w, actions, k, v, allowFakeIP, honour);
      }
    }
  }

  lemma CoherentStep(w: World, actions: seq<RuntimeAction>, k: nat, v: Visit, allowFakeIP: bool, honour: bool)
    requires k < |actions| && v.matched == w.matches(k, v.memory.Response())
    requires EndsWith(w, actions[k], k, v, allowFakeIP, honour).None?
    requires var after := MemoryAfter(w, actions[k], k, v, honour);
             Coherent(w, actions, k + 1, after, allowFakeIP, honour,
                      Interpret(w, actions, k + 1, after, allowFakeIP, honour))
    ensures Coherent(w, actions, k, v.memory, allowFakeIP, honour,
                     Interpret(w, actions, k, v.memory, allowFakeIP, honour))
  {
    var after := MemoryAfter(w, actions[k], k, v, honour);
    var rest := Interpret(w, actions, k + 1, after, allowFakeIP, honour);
    var run := Interpret(w, actions, k, v.memory, allowFakeIP, honour);
    assert run.visits == [v] + rest.visits;
    forall i | 0 <= i < |run.visits|
      ensures run.visits[i].matched == w.matches(k + i, run.visits[i].memory.Response())
    {
      if i > 0 { assert run.visits[i] == rest.visits[i - 1]; }
    }
    forall i | 0 <= i < |run.visits| - 1
      ensures EndsWith(w, actions[k + i], k + i, run.visits[i], allowFakeIP, honour).None?
      ensures run.visits[i + 1].memory == MemoryAfter(w, actions[k + i], k + i, run.visits[i], honour)
    {
      assert run.visits[i + 1] == rest.visits[i];
      if i > 0 { assert run.visits[i] == rest.visits[i - 1]; }
    }
  }

  /** The options of the matched route-options rules before rule `k`, in order. */
  ghost function MatchedOptions(actions: seq<RuntimeAction>, visits: seq<Visit>, k: nat): seq<RouteOptions>
    requires k <= |visits| <= |actions|
  {
    if k == 0 then []
    else
      MatchedOptions(actions, visits, k - 1) +
      if visits[k - 1].matched && actions[k - 1].ApplyOptions? then [actions[k - 1].options] else []
  }

  function OverlayAll(base: QueryOptions, overlays: seq<RouteOptions>): QueryOptions {
    if overlays == [] then base
    else Overlay(OverlayAll(base, overlays[..|overlays| - 1]), overlays[|overlays| - 1], false)
  }

  /** Any overlay disables the cache; none touches the strategy; what no overlay sets stays as it was. */
  lemma {:induction false} OverlayFields(base: QueryOptions, overlays: seq<RouteOptions>)
    ensures var r := OverlayAll(base, overlays);
            && r.strategy == base.strategy
            && (r.disableCache <==> base.disableCache || exists o :: o in overlays && o.disableCache)
            && ((forall o :: o in overlays ==> o.rewriteTTL.None?) ==> r.rewriteTTL == base.rewriteTTL)
            && ((forall o :: o in overlays ==> o.clientSubnet.None?) ==> r.clientSubnet == base.clientSubnet)
  {
    if overlays != [] {
      var init, last := overlays[..|overlays| - 1], overlays[|overlays| - 1];
      OverlayFields(base, init);
      assert forall o :: o in overlays <==> o in init || o == last;
    }
  }

  /** The last overlay that sets a TTL or a subnet wins. */
  lemma {:induction false} LastOverlayWins(base: QueryOptions, overlays: seq<RouteOptions>, i: nat)
    requires i < |overlays|
    ensures overlays[i].rewriteTTL.Some? && (forall j :: i < j < |overlays| ==> overlays[j].rewriteTTL.None?)
            ==> OverlayAll(base, overlays).rewriteTTL == overlays[i].rewriteTTL
    ensures overlays[i].clientSubnet.Some? && (forall j :: i < j < |overlays| ==> overlays[j].clientSubnet.None?)
            ==> OverlayAll(base, overlays).clientSubnet == overlays[i].clientSubnet
  {
    if i < |overlays| - 1 {
      var init := overlays[..|overlays| - 1];
      assert forall j :: 0 <= j < |init| ==> init[j] == overlays[j];
      LastOverlayWins(base, init, i);
    }
  }

  /** One more visit overlays its options, if it is a matched route-options rule, and nothing otherwise. */
  lemma OneMoreOverlay(actions: seq<RuntimeAction>, visits: seq<Visit>, k: nat, base: QueryOptions)
    requires 0 < k <= |visits| <= |actions|
    ensures OverlayAll(base, MatchedOptions(actions, visits, k)) ==
            var before, action := OverlayAll(base, MatchedOptions(actions, visits, k - 1)), actions[k - 1];
            if visits[k - 1].matched && action.ApplyOptions? then Overlay(before, action.options, false) else before
  {
    var before := MatchedOptions(actions, visits, k - 1);
    if visits[k - 1].matched && actions[k - 1].ApplyOptions? {
      assert (before + [actions[k - 1].options])[..|before|] == before;
    } else {
      assert before + [] == before;
    }
  }

  lemma MemoryOptions(w: World, action: RuntimeAction, k: nat, v: Visit)
    ensures MemoryAfter(w, action, k, v, false).options ==
            if v.matched && action.ApplyOptions? then Overlay(v.memory.options, action.options, false)
            else v.memory.options
  {
  }

  lemma {:induction false} OptionsAreOverlays(
    w: World, actions: seq<RuntimeAction>, m: Memory, allowFakeIP: bool, run: Run, k: nat)
    requires Coherent(w, actions, 0, m, allowFakeIP, false, run) && k < |run.visits|
    ensures run.visits[k].memory.options == OverlayAll(m.options, MatchedOptions(actions, run.visits, k))
  {
    if k > 0 {
      OptionsAreOverlays(w, actions, m, allowFakeIP, run, k - 1);
      assert run.visits[k - 1 + 1].memory ==
             MemoryAfter(w, actions[0 + (k - 1)], 0 + (k - 1), run.visits[k - 1], false);
      MemoryOptions(w, actions[k - 1], k - 1, run.visits[k - 1]);
      OneMoreOverlay(actions, run.visits, k, m.options);
    }
  }

  ghost predicate MatchedEvaluate(actions: seq<RuntimeAction>, visits: seq<Visit>, j: nat)
    requires |visits| <= |actions|
  {
    j < |visits| && visits[j].matched && actions[j].EvaluateWith?
  }

  ghost predicate LatestEvaluate(actions: seq<RuntimeAction>, visits: seq<Visit>, j: nat, k: nat)
    requires |visits| <= |actions|
  {
    j < k && MatchedEvaluate(actions, visits, j) && forall l :: j < l < k ==> !MatchedEvaluate(actions, visits, l)
  }

  /**
   The response a rule sees is that of the latest matched evaluate before it, nothing if that one had no
   server or failed, and nothing if there is none.
   */
  ghost predicate SeesLatestEvaluate(w: World, actions: seq<RuntimeAction>, visits: seq<Visit>, k: nat)
    requires k < |visits| <= |actions|
  {
    && ((forall j :: 0 <= j < k ==> !MatchedEvaluate(actions, visits, j)) ==> visits[k].memory.evaluated == None)
    && forall j: nat :: LatestEvaluate(actions, visits, j, k) ==>
         visits[k].memory.evaluated == Evaluated(w, OwnQuery(w, actions[j], j, visits[j], true, false))
  }

  lemma {:induction false} ResponseIsLatestEvaluate(
    w: World, actions: seq<RuntimeAction>, m: Memory, allowFakeIP: bool, run: Run, k: nat)
    requires Coherent(w, actions, 0, m, allowFakeIP, false, run) && k < |run.visits| && m.evaluated.None?
    ensures SeesLatestEvaluate(w, actions, run.visits, k)
  {
    if k > 0 {
      ResponseIsLatestEvaluate(w, actions, m, allowFakeIP, run, k - 1);
      assert run.visits[k - 1 + 1].memory ==
             MemoryAfter(w, actions[0 + (k - 1)], 0 + (k - 1), run.visits[k - 1], false);
      LatestEvaluateStep(w, actions, run.visits, k);
    }
  }

  lemma LatestEvaluateStep(w: World, actions: seq<RuntimeAction>, visits: seq<Visit>, k: nat)
    requires 0 < k < |visits| <= |actions| && SeesLatestEvaluate(w, actions, visits, k - 1)
    requires visits[k].memory == MemoryAfter(w, actions[k - 1], k - 1, visits[k - 1], false)
    ensures SeesLatestEvaluate(w, actions, visits, k)
  {
    var evaluates := MatchedEvaluate(actions, visits, k - 1);
    assert visits[k].memory.evaluated ==
           if evaluates then Evaluated(w, OwnQuery(w, actions[k - 1], k - 1, visits[k - 1], true, false))
           else visits[k - 1].memory.evaluated;
    forall j: nat | LatestEvaluate(actions, visits, j, k)
      ensures visits[k].memory.evaluated == Evaluated(w, OwnQuery(w, actions[j], j, visits[j], true, false))
    {
      if evaluates {
        assert j == k - 1;
      } else {
        assert LatestEvaluate(actions, visits, j, k - 1);
      }
    }
  }

  /** The queries are those of the visited rules in order, then at most the default server's. */
  ghost function RuleQueries(
    w: World, actions: seq<RuntimeAction>, visits: seq<Visit>, k: nat, allowFakeIP: bool): seq<Query>
    requires k + |visits| <= |actions|
    decreases |visits|
  {
    if visits == [] then []
    else AsSeq(OwnQuery(w, actions[k], k, visits[0], allowFakeIP, false)) +
         RuleQueries(w, actions, visits[1..], k + 1, allowFakeIP)
  }

  /** How the walk ends: at the last visited rule, or past all rules with the default server. */
  ghost predicate EndsRight(w: World, actions: seq<RuntimeAction>, k: nat, m: Memory, allowFakeIP: bool, run: Run)
    requires k + |run.visits| <= |actions|
  {
    var n := |run.visits|;
    var own := RuleQueries(w, actions, run.visits, k, allowFakeIP);
    if n > 0 && EndsWith(w, actions[k + n - 1], k + n - 1, run.visits[n - 1], allowFakeIP, false).Some? then
      && run.queries == own
      && run.outcome == EndsWith(w, actions[k + n - 1], k + n - 1, run.visits[n - 1], allowFakeIP, false).value
    else
      var last := if n == 0 then m else MemoryAfter(w, actions[k + n - 1], k + n - 1, run.visits[n - 1], false);
      var q := FallbackQuery(w, |actions|, last);
      && k + n == |actions|
      && run.queries == own + [q]
      && run.outcome == Exchanged(q.transport, Ask(w, q))
  }

  lemma {:induction false} RunEndsRight(w: World, actions: seq<RuntimeAction>, k: nat, m: Memory, allowFakeIP: bool)
    requires k <= |actions|
    ensures k + |Interpret(w, actions, k, m, allowFakeIP, false).visits| <= |actions|
    ensures EndsRight(w, actions, k, m, allowFakeIP, Interpret(w, actions, k, m, allowFakeIP, false))
    decreases |actions| - k
  {
    if k < |actions| {
      var v := Visit(m, w.matches(k, m.Response()));
      var run := Interpret(w, actions, k, m, allowFakeIP, false);
      if EndsWith(w, actions[k], k, v, allowFakeIP, false).Some? {
        EndsHere(w, actions, k, m, v, allowFakeIP, run);
      } else {
        var after := MemoryAfter(w, actions[k], k, v, false);
        InterpretGoesOn(w, actions, k, m, allowFakeIP);
        RunEndsRight(w, actions, k + 1, after, allowFakeIP);
        var rest := Interpret(w, actions, k + 1, after, allowFakeIP, false);
        EndsRightStep(w, actions, k, v, allowFakeIP, run, rest);
      }
    }
  }

  lemma InterpretGoesOn(w: World, actions: seq<RuntimeAction>, k: nat, m: Memory, allowFakeIP: bool)
    requires k < |actions|
    requires EndsWith(w, actions[k], k, Visit(m, w.matches(k, m.Response())), allowFakeIP, false).None?
    ensures var v := Visit(m, w.matches(k, m.Response()));
            var run := Interpret(w, actions, k, m, allowFakeIP, false);
            var rest := Interpret(w, actions, k + 1, MemoryAfter(w, actions[k], k, v, false), allowFakeIP, false);
            && run.visits == [v] + rest.visits && run.visits[1..] == rest.visits && run.outcome == rest.outcome
            && run.queries == AsSeq(OwnQuery(w, actions[k], k, v, allowFakeIP, false)) + rest.queries
  {
  }

  lemma EndsHere(w: World, actions: seq<RuntimeAction>, k: nat, m: Memory, v: Visit, allowFakeIP: bool, run: Run)
    requires k < |actions| && EndsWith(w, actions[k], k, v, allowFakeIP, false).Some?
    requires run == Run(EndsWith(w, actions[k], k, v, allowFakeIP, false).value,
                        AsSeq(OwnQuery(w, actions[k], k, v, allowFakeIP, false)), [v])
    ensures EndsRight(w, actions, k, m, allowFakeIP, run)
  {
  }

  lemma EndsRightStep(w: World, actions: seq<RuntimeAction>, k: nat, v: Visit, allowFakeIP: bool, run: Run, rest: Run)
    requires k + 1 + |rest.visits| <= |actions| && EndsWith(w, actions[k], k, v, allowFakeIP, false).None?
    requires EndsRight(w, actions, k + 1, MemoryAfter(w, actions[k], k, v, false), allowFakeIP, rest)
    requires run.visits == [v] + rest.visits && run.visits[1..] == rest.visits && run.outcome == rest.outcome
    requires run.queries == AsSeq(OwnQuery(w, actions[k], k, v, allowFakeIP, false)) + rest.queries
    ensures EndsRight(w, actions, k, v.memory, allowFakeIP, run)
  {
  }

  /**
   The walk explained: at every visited rule the options are the caller's overlaid by exactly the matched
   route-options rules before it, and the response is the latest matched evaluate's; the queries are the
   visited rules' own ones, and the outcome is that of the last rule or of the default server.
   */
  lemma WalkExplained(w: World, actions: seq<RuntimeAction>, options: QueryOptions, allowFakeIP: bool)
    ensures var run := Interpret(w, actions, 0, Memory(options, None), allowFakeIP, false);
            && |run.visits| <= |actions|
            && (forall k :: 0 <= k < |run.visits| ==>
                  && run.visits[k].memory.options == OverlayAll(options, MatchedOptions(actions, run.visits, k))
                  && SeesLatestEvaluate(w, actions, run.visits, k)
                  && run.visits[k].matched == w.matches(k, run.visits[k].memory.Response()))
            && EndsRight(w, actions, 0, Memory(options, None), allowFakeIP, run)
  {
    var m := Memory(options, None);
    var run := Interpret(w, actions, 0, m, allowFakeIP, false);
    RunIsCoherent(w, actions, 0, m, allowFakeIP, false);
    RunEndsRight(w, actions, 0, m, allowFakeIP);
    forall k | 0 <= k < |run.visits|
      ensures run.visits[k].memory.options == OverlayAll(options, MatchedOptions(actions, run.visits, k))
      ensures SeesLatestEvaluate(w, actions, run.visits, k)
      ensures run.visits[k].matched == w.matches(k, run.visits[k].memory.Response())
    {
      OptionsAreOverlays(w, actions, m, allowFakeIP, run, k);
      ResponseIsLatestEvaluate(w, actions, m, allowFakeIP, run, k);
      assert run.visits[k].matched == w.matches(0 + k, run.visits[k].memory.Response());
    }
  }

  /**
   The query of a visited rule, field by field; there is none exactly where nothing matched or no server may
   be asked.
   */
  lemma OwnQueryMeaning(w: World, action: RuntimeAction, k: nat, v: Visit, allowFakeIP: bool)
    ensures var q := OwnQuery(w, action, k, v, allowFakeIP, false);
            && (q.Some? <==>
                  && v.matched && (action.EvaluateWith? || action.RouteTo?) && action.server in w.transports
                  && (action.RouteTo? && w.transports[action.server].fakeIP ==> allowFakeIP))
            && (q.Some? ==>
                  var base, own, t, o := v.memory.options, action.options, w.transports[action.server], q.value.options;
                  && q.value.rule == k && q.value.transport == t
                  && o.strategy == (if base.strategy != AsIs then base.strategy else w.defaultStrategy)
                  && (o.disableCache <==> base.disableCache || own.disableCache || (action.RouteTo? && t.fakeIP))
                  && o.rewriteTTL == (if own.rewriteTTL.Some? then own.rewriteTTL else base.rewriteTTL)
                  && o.clientSubnet == (if own.clientSubnet.Some? then own.clientSubnet else base.clientSubnet))
  {
  }

  // ---------- What ends the walk, and how ----------

  /** A matched rule with this action ends the walk: a routing one, if its server is known and may be asked. */
  predicate Settling(w: World, action: RuntimeAction, allowFakeIP: bool) {
    || action.RespondNow? || action.Answer?
    || (action.RejectWith? && action.rejectMethod != Reply)
    || (action.RouteTo? && action.server in w.transports && (w.transports[action.server].fakeIP ==> allowFakeIP))
  }

  /** The outcome that rule `k` stands for: a refusal, silence, its own answer, the evaluated one, or its server's. */
  ghost predicate SettlesAs(w: World, action: RuntimeAction, k: nat, m: Memory, outcome: Outcome) {
    match action
    case RejectWith(how) => outcome == (if how == Drop then Dropped else Refused)
    case Answer(message) => outcome == Answered(message)
    case RespondNow =>
      if m.evaluated == None then outcome == RespondMissing
      else outcome == Responded(m.evaluated.value.0, m.evaluated.value.1)
    case RouteTo(server, _) =>
      var q := OwnQuery(w, action, k, Visit(m, true), true, false);
      && server in w.transports && q.Some?
      && outcome == Exchanged(w.transports[server], w.exchange(k, w.transports[server], q.value.options))
    case _ => false
  }

  lemma EndsWithMeaning(w: World, action: RuntimeAction, k: nat, v: Visit, allowFakeIP: bool)
    ensures var end := EndsWith(w, action, k, v, allowFakeIP, false);
            && (end.Some? <==> v.matched && Settling(w, action, allowFakeIP))
            && (end.Some? ==> SettlesAs(w, action, k, v.memory, end.value))
  {
  }

  /** What a matched evaluate leaves behind: its server's answer, or nothing if there is no server or no answer. */
  lemma EvaluatedMeaning(w: World, action: RuntimeAction, k: nat, v: Visit)
    requires v.matched && action.EvaluateWith?
    ensures var q := OwnQuery(w, action, k, v, true, false);
            var after := Evaluated(w, q);
            if action.server !in w.transports then after == None
            else
              var t := w.transports[action.server];
              && q.Some?
              && var answer := w.exchange(k, t, q.value.options);
                 after == if answer == None then None else Some((answer.value, t))
  {
  }

  lemma OptionsAtTheEnd(w: World, actions: seq<RuntimeAction>, m: Memory, allowFakeIP: bool, run: Run)
    requires Coherent(w, actions, 0, m, allowFakeIP, false, run)
    ensures var n := |run.visits|;
            var last := if n == 0 then m else MemoryAfter(w, actions[n - 1], n - 1, run.visits[n - 1], false);
            last.options == OverlayAll(m.options, MatchedOptions(actions, run.visits, n))
  {
    var n := |run.visits|;
    if n > 0 {
      OptionsAreOverlays(w, actions, m, allowFakeIP, run, n - 1);
      MemoryOptions(w, actions[n - 1], n - 1, run.visits[n - 1]);
      OneMoreOverlay(actions, run.visits, n, m.options);
    }
  }

  /**
   The outcome of the walk: the first visited rule that matched and settles the query is the last one visited
   and gives the outcome; if there is none, every rule was visited and the default server is asked, with the
   caller's options overlaid by all matched route-options rules.
   */
  lemma OutcomeMeaning(w: World, actions: seq<RuntimeAction>, options: QueryOptions, allowFakeIP: bool)
    ensures var run := Interpret(w, actions, 0, Memory(options, None), allowFakeIP, false);
            var n := |run.visits|;
            && n <= |actions|
            && (forall k :: 0 <= k < n - 1 ==> !(run.visits[k].matched && Settling(w, actions[k], allowFakeIP)))
            && if n > 0 && run.visits[n - 1].matched && Settling(w, actions[n - 1], allowFakeIP)
               then SettlesAs(w, actions[n - 1], n - 1, run.visits[n - 1].memory, run.outcome)
               else
                 var sent := OverlayAll(options, MatchedOptions(actions, run.visits, n))
                   .(strategy := if options.strategy == AsIs then w.defaultStrategy else options.strategy);
                 n == |actions| && run.outcome == Exchanged(w.fallback, w.exchange(n, w.fallback, sent))
  {
    var m := Memory(options, None);
    var run := Interpret(w, actions, 0, m, allowFakeIP, false);
    var n := |run.visits|;
    RunIsCoherent(w, actions, 0, m, allowFakeIP, false);
    RunEndsRight(w, actions, 0, m, allowFakeIP);
    forall k | 0 <= k < n - 1 ensures !(run.visits[k].matched && Settling(w, actions[k], allowFakeIP)) {
      assert EndsWith(w, actions[0 + k], 0 + k, run.visits[k], allowFakeIP, false).None?;
      EndsWithMeaning(w, actions[k], k, run.visits[k], allowFakeIP);
    }
    if n > 0 { EndsWithMeaning(w, actions[n - 1], n - 1, run.visits[n - 1], allowFakeIP); }
    OptionsAtTheEnd(w, actions, m, allowFakeIP, run);
    OverlayFields(options, MatchedOptions(actions, run.visits, n));
  }

  /** Accepted rules respond, at any depth of matching, only behind a top-level evaluate. */
  lemma RespondFollowsEvaluate(rules: seq<Rule>, router: Option<RuleSets>, fakeIP: set<string>, k: nat)
    requires Accepted(rules, router, fakeIP, false) && k < |rules| && RuntimeActions(rules)[k].RespondNow?
    ensures exists j :: 0 <= j < k && RuntimeActions(rules)[j].EvaluateWith?
  {
    assert ReadyAt(rules, k);
    assert Inside(rules[k], rules[k]) && NodeUsesResponse(rules[k]);
    var j :| 0 <= j < k && Evaluates(rules[j]);
    assert RuntimeActions(rules)[j].EvaluateWith?;
  }

  // ---------- The analysis justifies ignoring strategies ----------

  function RuntimeActions(rules: seq<Rule>): (actions: seq<RuntimeAction>)
    ensures |actions| == |rules|
  {
    seq(|rules|, i requires 0 <= i < |rules| => if rules[i].UnknownType? then NoAction else Runtime(rules[i].action))
  }

  /** Each rule's own action is what the walk takes at its number. */
  lemma RuntimeMeaning(rules: seq<Rule>, i: nat)
    requires i < |rules| && !rules[i].UnknownType?
    ensures var action, runtime := rules[i].action, RuntimeActions(rules)[i];
            && (action.kind == Unset <==> runtime == NoAction)
            && (action.kind == Respond <==> runtime == RespondNow)
            && (action.kind == Route <==> runtime.RouteTo?)
            && (runtime.RouteTo? ==> runtime.server == action.server && runtime.options == action.route)
            && (action.kind == Evaluate <==> runtime.EvaluateWith?)
            && (runtime.EvaluateWith? ==> runtime.server == action.server && runtime.options == action.route)
            && (action.kind == OptionsOnly <==> runtime.ApplyOptions?)
            && (runtime.ApplyOptions? ==> runtime.options == action.options)
            && (action.kind == Reject <==> runtime.RejectWith?)
            && (runtime.RejectWith? ==> runtime.rejectMethod == action.reject)
            && (runtime.Answer? ==> runtime.message == action.answer)
  {
  }

  predicate CarriesStrategy(action: RuntimeAction) {
    (action.RouteTo? || action.EvaluateWith? || action.ApplyOptions?) && action.options.strategy != AsIs
  }

  lemma RuleStrategyIrrelevant(w: World, action: RuntimeAction, k: nat, v: Visit, allowFakeIP: bool)
    requires !CarriesStrategy(action)
    ensures OwnQuery(w, action, k, v, allowFakeIP, true) == OwnQuery(w, action, k, v, allowFakeIP, false)
    ensures MemoryAfter(w, action, k, v, true) == MemoryAfter(w, action, k, v, false)
    ensures EndsWith(w, action, k, v, allowFakeIP, true) == EndsWith(w, action, k, v, allowFakeIP, false)
  {
  }

  lemma {:induction false} StrategyIrrelevant(
    w: World, actions: seq<RuntimeAction>, k: nat, m: Memory, allowFakeIP: bool)
    requires k <= |actions| && forall i :: 0 <= i < |actions| ==> !CarriesStrategy(actions[i])
    ensures Interpret(w, actions, k, m, allowFakeIP, true) == Interpret(w, actions, k, m, allowFakeIP, false)
    decreases |actions| - k
  {
    if k < |actions| {
      var v := Visit(m, w.matches(k, m.Response()));
      RuleStrategyIrrelevant(w, actions[k], k, v, allowFakeIP);
      StrategyIrrelevant(w, actions, k + 1, MemoryAfter(w, actions[k], k, v, false), allowFakeIP);
    }
  }

  /** With accepted rules, skipping the strategies of rule actions gives what honouring them would give. */
  lemma AcceptedRulesNeedNoStrategy(
    w: World, rules: seq<Rule>, router: Option<RuleSets>, fakeIP: set<string>, options: QueryOptions, allowFakeIP: bool)
    requires Accepted(rules, router, fakeIP, false)
    ensures var m := Memory(options, None);
            Interpret(w, RuntimeActions(rules), 0, m, allowFakeIP, true) ==
            Interpret(w, RuntimeActions(rules), 0, m, allowFakeIP, false)
  {
    var actions := RuntimeActions(rules);
    forall i | 0 <= i < |actions| ensures !CarriesStrategy(actions[i]) {
      assert Inside(rules[i], rules[i]);
      NonLegacyHasNoStrategy(router, rules, rules[i]);
    }
    StrategyIrrelevant(w, actions, 0, Memory(options, None), allowFakeIP);
  }

  // ---------- Lookups never reach a fakeip server ----------

  function FakeIPServers(transports: map<string, Transport>): set<string> {
    set tag | tag in transports && transports[tag].fakeIP
  }

  ghost predicate NoFakeIP(queries: seq<Query>) {
    forall q :: q in queries ==> !q.transport.fakeIP
  }

  lemma {:induction false} WalkAvoidsFakeIP(w: World, actions: seq<RuntimeAction>, k: nat, m: Memory)
    requires k <= |actions| && !w.fallback.fakeIP
    requires forall i :: 0 <= i < |actions| && actions[i].EvaluateWith? ==>
               actions[i].server !in FakeIPServers(w.transports)
    ensures NoFakeIP(Interpret(w, actions, k, m, false, false).queries)
    decreases |actions| - k
  {
    if k < |actions| {
      var v := Visit(m, w.matches(k, m.Response()));
      var own := OwnQuery(w, actions[k], k, v, false, false);
      assert own.Some? ==> !own.value.transport.fakeIP;
      WalkAvoidsFakeIP(w, actions, k + 1, MemoryAfter(w, actions[k], k, v, false));
    }
  }

  /** A lookup in the new mode (both query types walk like this) queries no fakeip server. */
  lemma LookupAvoidsFakeIP(w: World, rules: seq<Rule>, router: Option<RuleSets>, options: QueryOptions)
    requires Accepted(rules, router, FakeIPServers(w.transports), false) && !w.fallback.fakeIP
    ensures NoFakeIP(Interpret(w, RuntimeActions(rules), 0, Memory(options, None), false, false).queries)
  {
    var actions := RuntimeActions(rules);
    forall i | 0 <= i < |actions| && actions[i].EvaluateWith?
      ensures actions[i].server !in FakeIPServers(w.transports)
    {
      assert Evaluates(rules[i]) && Constructible(rules[i], true, false);
    }
    WalkAvoidsFakeIP(w, actions, 0, Memory(options, None));
  }
}
