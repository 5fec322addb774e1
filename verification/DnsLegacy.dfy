/**
 The legacy rule walk: pick the first matching rule that settles the query, ask the client, and start
 again behind that rule when its address filter rejects the response.
 */
module DnsLegacy {
  import opened Wrappers
  import opened DnsRules
  import opened DnsExchange

  datatype ClientReply = Good(message: Message) | Rejected | Failed

  /** `preMatch` and `addressLimit` are the rules' LegacyPreMatch and WithAddressLimit. */
  datatype LegacyWorld = LegacyWorld(
    preMatch: nat -> bool,
    addressLimit: nat -> bool,
    reply: (nat, Transport, QueryOptions) -> ClientReply,
    transports: map<string, Transport>,
    fallback: Transport,
    defaultStrategy: Strategy)

  datatype Selection =
    | Selected(rule: nat, transport: Option<Transport>, options: QueryOptions)
    | Fallback(options: QueryOptions)

  predicate Considered(w: LegacyWorld, k: nat, addressQuery: bool) {
    !(w.addressLimit(k) && !addressQuery) && w.preMatch(k)
  }

  /** The action settles the walk: a usable server, a rejection or a fixed answer. */
  predicate Settles(w: LegacyWorld, action: RuntimeAction, allowFakeIP: bool) {
    match action
    case RouteTo(server, _) => server in w.transports && (w.transports[server].fakeIP ==> allowFakeIP)
    case RejectWith(_) | Answer(_) => true
    case _ => false
  }

  function SettledBy(w: LegacyWorld, action: RuntimeAction, k: nat, options: QueryOptions): Selection {
    match action
    case RouteTo(server, o) =>
      if server in w.transports then
        var t := w.transports[server];
        var own := Overlay(options, o, true);
        Selected(k, Some(t), own.(disableCache := own.disableCache || t.fakeIP))
      else Selected(k, None, options)
    case _ => Selected(k, None, options)
  }

  /** The options of the considered route-options rules from `from` up to `k`, applied in order, strategies included. */
  function Gathered(
    w: LegacyWorld, actions: seq<RuntimeAction>, from: nat, k: nat, addressQuery: bool, base: QueryOptions)
    : QueryOptions
    requires from <= k <= |actions|
  {
    if k == from then base
    else
      var before := Gathered(w, actions, from, k - 1, addressQuery, base);
      if Considered(w, k - 1, addressQuery) && actions[k - 1].ApplyOptions?
      then Overlay(before, actions[k - 1].options, true) else before
  }

  /** Rule `k` is the first one from `from` on that is considered and settles the walk. */
  ghost predicate FirstSettling(
    w: LegacyWorld, actions: seq<RuntimeAction>, from: nat, k: nat, allowFakeIP: bool, addressQuery: bool)
  {
    && from <= k < |actions|
    && Considered(w, k, addressQuery) && Settles(w, actions[k], allowFakeIP)
    && forall j :: from <= j < k ==> !(Considered(w, j, addressQuery) && Settles(w, actions[j], allowFakeIP))
  }

  /** What `matchDNS` must return when it starts at rule `from`. */
  ghost predicate Selects(
    w: LegacyWorld, actions: seq<RuntimeAction>, from: nat, allowFakeIP: bool, addressQuery: bool, base: QueryOptions,
    s: Selection)
  {
    if s.Fallback? then
      && from <= |actions|
      && s.options == Gathered(w, actions, from, |actions|, addressQuery, base)
      && forall k :: from <= k < |actions| ==> !(Considered(w, k, addressQuery) && Settles(w, actions[k], allowFakeIP))
    else
      && FirstSettling(w, actions, from, s.rule, allowFakeIP, addressQuery)
      && s == SettledBy(w, actions[s.rule], s.rule, Gathered(w, actions, from, s.rule, addressQuery, base))
  }

  /** `matchDNS` */
  method MatchDns(
    w: LegacyWorld, actions: seq<RuntimeAction>, from: nat, allowFakeIP: bool, addressQuery: bool, base:
    QueryOptions)
    returns (s: Selection)
    requires from <= |actions|
    ensures Selects(w, actions, from, allowFakeIP, addressQuery, base, s)
  {
    var options := base;
    for k := from to |actions|
      invariant options == Gathered(w, actions, from, k, addressQuery, base)
      invariant forall j :: from <= j < k ==> !(Considered(w, j, addressQuery) && Settles(w, actions[j], allowFakeIP))
    {
      if w.addressLimit(k) && !addressQuery { continue; }
      if w.preMatch(k) {
        match actions[k]
        case RouteTo(server, o) =>
          if server !in w.transports { continue; }
          var t := w.transports[server];
          if t.fakeIP && !allowFakeIP { continue; }
          options := Overlay(options, o, true);
          if t.fakeIP { options := options.(disableCache := true); }
          return Selected(k, Some(t), options);
        case ApplyOptions(o) => options := Overlay(options, o, true);
        case RejectWith(_) => return Selected(k, None, options);
        case Answer(_) => return Selected(k, None, options);
        case _ =>
      }
    }
    s := Fallback(options);
  }

  // ---------- What the selection means ----------

  /** A rule that applies to the query: address filters are for address queries only. */
  predicate Applies(w: LegacyWorld, k: nat, addressQuery: bool) {
    w.preMatch(k) && (w.addressLimit(k) ==> addressQuery)
  }

  /** A rejection, a fixed answer, or a server that exists and may be used. */
  predicate Decides(w: LegacyWorld, action: RuntimeAction, allowFakeIP: bool) {
    || action.RejectWith? || action.Answer?
    || (action.RouteTo? && action.server in w.transports && (allowFakeIP || !w.transports[action.server].fakeIP))
  }

  /** Rule `k` is the first from `from` on that applies and decides. */
  ghost predicate FirstDeciding(
    w: LegacyWorld, actions: seq<RuntimeAction>, from: nat, k: nat, allowFakeIP: bool, addressQuery: bool)
  {
    && from <= k < |actions| && Applies(w, k, addressQuery) && Decides(w, actions[k], allowFakeIP)
    && forall j :: from <= j < k ==> !(Applies(w, j, addressQuery) && Decides(w, actions[j], allowFakeIP))
  }

  /** The selected rule is the first that applies and decides, with its server if it has one; else there is none. */
  lemma SelectionMeaning(
    w: LegacyWorld, actions: seq<RuntimeAction>, from: nat, allowFakeIP: bool, addressQuery: bool, base: QueryOptions,
    s: Selection)
    requires Selects(w, actions, from, allowFakeIP, addressQuery, base, s)
    ensures s.Selected? ==>
              && FirstDeciding(w, actions, from, s.rule, allowFakeIP, addressQuery)
              && (s.transport.None? <==> !actions[s.rule].RouteTo?)
              && (s.transport.Some? ==> s.transport.value == w.transports[actions[s.rule].server])
    ensures s.Fallback? ==> forall k :: !FirstDeciding(w, actions, from, k, allowFakeIP, addressQuery)
    // the options are those gathered on the way, overlaid by the selected server's own; fakeip is never cached
    ensures s.Fallback? ==>
              from <= |actions| && s.options == Gathered(w, actions, from, |actions|, addressQuery, base)
    ensures s.Selected? ==>
              var g := Gathered(w, actions, from, s.rule, addressQuery, base);
              if !actions[s.rule].RouteTo? then s.options == g
              else
                var o := actions[s.rule].options;
                && s.options.strategy == (if o.strategy == AsIs then g.strategy else o.strategy)
                && (s.options.disableCache <==> g.disableCache || o.disableCache || s.transport.value.fakeIP)
                && s.options.rewriteTTL == (if o.rewriteTTL.None? then g.rewriteTTL else o.rewriteTTL)
                && s.options.clientSubnet == (if o.clientSubnet.None? then g.clientSubnet else o.clientSubnet)
  {
    if s.Selected? {
      forall j | from <= j < s.rule ensures !(Applies(w, j, addressQuery) && Decides(w, actions[j], allowFakeIP)) {
        assert !(Considered(w, j, addressQuery) && Settles(w, actions[j], allowFakeIP));
      }
    }
  }

  predicate OptionRule(w: LegacyWorld, actions: seq<RuntimeAction>, k: nat, addressQuery: bool)
    requires k < |actions|
  {
    actions[k].ApplyOptions? && Applies(w, k, addressQuery)
  }

  /** Any route-options rule on the way disables the cache; what none of them sets is the caller's. */
  lemma {:induction false} GatheredFields(
    w: LegacyWorld, actions: seq<RuntimeAction>, from: nat, k: nat, addressQuery: bool, base: QueryOptions)
    requires from <= k <= |actions|
    ensures var r := Gathered(w, actions, from, k, addressQuery, base);
            && (r.disableCache <==>
                  || base.disableCache
                  || exists j :: from <= j < k && OptionRule(w, actions, j, addressQuery)
                                 && actions[j].options.disableCache)
            && (|| r.strategy == base.strategy
                || exists j :: from <= j < k && OptionRule(w, actions, j, addressQuery)
                               && actions[j].options.strategy == r.strategy != AsIs)
  {
    if k > from { GatheredFields(w, actions, from, k - 1, addressQuery, base); }
  }

  /** And the last rule to set a strategy, a TTL or a subnet wins. */
  lemma {:induction false} LastGatheredWins(
    w: LegacyWorld, actions: seq<RuntimeAction>, from: nat, i: nat, k: nat, addressQuery: bool, base: QueryOptions)
    requires from <= i < k <= |actions| && OptionRule(w, actions, i, addressQuery)
    ensures var r, o := Gathered(w, actions, from, k, addressQuery, base), actions[i].options;
            && (o.strategy != AsIs
                && (forall j :: i < j < k && OptionRule(w, actions, j, addressQuery) ==>
                      actions[j].options.strategy == AsIs)
                ==> r.strategy == o.strategy)
            && (o.rewriteTTL.Some?
                && (forall j :: i < j < k && OptionRule(w, actions, j, addressQuery) ==>
                      actions[j].options.rewriteTTL.None?)
                ==> r.rewriteTTL == o.rewriteTTL)
            && (o.clientSubnet.Some?
                && (forall j :: i < j < k && OptionRule(w, actions, j, addressQuery) ==>
                      actions[j].options.clientSubnet.None?)
                ==> r.clientSubnet == o.clientSubnet)
  {
    if i < k - 1 { LastGatheredWins(w, actions, from, i, k - 1, addressQuery, base); }
  }

  datatype LegacyOutcome =
    | Replied(reply: ClientReply)
    | LookupRejected
    | LegacyRefused
    | LegacyDropped
    | LegacyAnswered(message: Message)
    | NilTransport // a reject method that nobody handles: the client is called without a server

  function WithStrategy(w: LegacyWorld, options: QueryOptions): QueryOptions {
    if options.strategy == AsIs then options.(strategy := w.defaultStrategy) else options
  }

  /** The query that follows from a selection; the default server counts as the rule behind the last. */
  function SelectionQuery(w: LegacyWorld, actions: seq<RuntimeAction>, s: Selection): Option<Query> {
    match s
    case Fallback(o) => Some(Query(|actions|, w.fallback, WithStrategy(w, o)))
    case Selected(k, t, o) => if t.None? then None else Some(Query(k, t.value, WithStrategy(w, o)))
  }

  function ReplyTo(w: LegacyWorld, q: Query): ClientReply {
    w.reply(q.rule, q.transport, q.options)
  }

  /** The loop goes on: the rule has an address filter and the reply was rejected, or, in a lookup, failed at all. */
  predicate Retries(w: LegacyWorld, actions: seq<RuntimeAction>, q: Query, lookup: bool) {
    q.rule < |actions| && w.addressLimit(q.rule) &&
    if lookup then !ReplyTo(w, q).Good? else ReplyTo(w, q).Rejected?
  }

  function StartOf(queries: seq<Query>, i: nat): nat
    requires i <= |queries|
  {
    if i == 0 then 0 else queries[i - 1].rule + 1
  }

  /** What the caller asks for; a lookup passes `allowFakeIP == false` and `addressQuery == true`. */
  datatype Request = Request(options: QueryOptions, allowFakeIP: bool, addressQuery: bool, lookup: bool)

  ghost predicate SelectsFor(w: LegacyWorld, actions: seq<RuntimeAction>, r: Request, from: nat, s: Selection) {
    Selects(w, actions, from, r.allowFakeIP, r.addressQuery, r.options, s)
  }

  /** The walk started at rule `from`, with the caller's own options, makes query `q`. */
  ghost predicate Makes(w: LegacyWorld, actions: seq<RuntimeAction>, r: Request, from: nat, q: Query) {
    exists s :: SelectsFor(w, actions, r, from, s) && SelectionQuery(w, actions, s) == Some(q)
  }

  /** The walk started at rule `from` is settled without a query. */
  ghost predicate Settled(w: LegacyWorld, actions: seq<RuntimeAction>, r: Request, from: nat) {
    exists s :: SelectsFor(w, actions, r, from, s) && s.Selected? && s.transport.None?
  }

  /** The outcome is that of the first rule that applies and decides, which rejects or answers. */
  ghost predicate SettledAs(
    w: LegacyWorld, actions: seq<RuntimeAction>, r: Request, from: nat, k: nat, outcome: LegacyOutcome)
  {
    && FirstDeciding(w, actions, from, k, r.allowFakeIP, r.addressQuery)
    && match actions[k]
       case Answer(message) => outcome == LegacyAnswered(message)
       case RejectWith(how) =>
         if r.lookup then outcome == LookupRejected
         else if how == DefaultMethod then outcome == LegacyRefused
         else if how == Drop then outcome == LegacyDropped
         else outcome == NilTransport
       case _ => false
  }

  /** The walk started at rule `from` ends there, without a query, with this outcome. */
  ghost predicate SettledWith(
    w: LegacyWorld, actions: seq<RuntimeAction>, r: Request, from: nat, outcome: LegacyOutcome)
  {
    Settled(w, actions, r, from) && exists k :: SettledAs(w, actions, r, from, k, outcome)
  }

  /** Each query is made by the walk started behind the rule of the one before, which was retried. */
  ghost predicate Attempts(w: LegacyWorld, actions: seq<RuntimeAction>, r: Request, queries: seq<Query>) {
    queries == [] ||
    var init, last := queries[..|queries| - 1], queries[|queries| - 1];
    && Attempts(w, actions, r, init)
    && (init != [] ==> Retries(w, actions, init[|init| - 1], r.lookup))
    && Makes(w, actions, r, StartOf(init, |init|), last)
  }

  /** The reply sends the loop on to the rules behind: no address for a lookup, a rejected response for an exchange. */
  predicate Unusable(reply: ClientReply, lookup: bool) {
    reply.Rejected? || (lookup && reply.Failed?)
  }

  /** The reply is taken as it is: the query is the default server's, its rule has no filter, or the reply is usable. */
  predicate Final(w: LegacyWorld, actions: seq<RuntimeAction>, q: Query, lookup: bool) {
    || q.rule >= |actions| || !w.addressLimit(q.rule)
    || !Unusable(w.reply(q.rule, q.transport, q.options), lookup)
  }

  lemma RetriesMeaning(w: LegacyWorld, actions: seq<RuntimeAction>, q: Query, lookup: bool)
    ensures Retries(w, actions, q, lookup) <==> !Final(w, actions, q, lookup)
  {
  }

  /** Only rules with an address filter are given up, each for a reply that it could not use. */
  lemma {:induction false} AttemptsMeaning(
    w: LegacyWorld, actions: seq<RuntimeAction>, r: Request, queries: seq<Query>, i: nat)
    requires Attempts(w, actions, r, queries) && i < |queries|
    ensures i < |queries| - 1 ==>
              && queries[i].rule < |actions| && w.addressLimit(queries[i].rule)
              && Unusable(w.reply(queries[i].rule, queries[i].transport, queries[i].options), r.lookup)
    ensures queries[i].options.strategy == AsIs ==> w.defaultStrategy == AsIs
  {
    var init := queries[..|queries| - 1];
    if i < |init| {
      AttemptsMeaning(w, actions, r, init, i);
      if i == |init| - 1 { assert Retries(w, actions, init[i], r.lookup); }
    }
  }

  lemma MakesBehind(w: LegacyWorld, actions: seq<RuntimeAction>, r: Request, from: nat, q: Query)
    requires Makes(w, actions, r, from, q)
    ensures from <= q.rule <= |actions|
    ensures !r.allowFakeIP && !w.fallback.fakeIP ==> !q.transport.fakeIP
  {
  }

  /** One round of the loop: an immediate outcome, or a query with its retry decision. */
  method Round(w: LegacyWorld, actions: seq<RuntimeAction>, r: Request, from: nat)
    returns (outcome: Option<LegacyOutcome>, query: Option<Query>, retry: bool)
    requires from <= |actions|
    ensures outcome.None? <==> query.Some?
    ensures outcome.Some? ==> SettledWith(w, actions, r, from, outcome.value) && !outcome.value.Replied?
    ensures outcome == Some(NilTransport) ==>
              !r.lookup && exists k :: 0 <= k < |actions| && actions[k] == RejectWith(Reply)
    ensures query.Some? ==>
              && Makes(w, actions, r, from, query.value)
              && (retry <==> Retries(w, actions, query.value, r.lookup))
  {
    outcome, query, retry := None, None, false;
    var s := MatchDns(w, actions, from, r.allowFakeIP, r.addressQuery, r.options);
    assert SelectsFor(w, actions, r, from, s);
    SelectionMeaning(w, actions, from, r.allowFakeIP, r.addressQuery, r.options, s);
    if s.Selected? && s.transport.None? {
      match actions[s.rule] {
        case RejectWith(rejectMethod) =>
          outcome := Some(if r.lookup then LookupRejected
                          else if rejectMethod.DefaultMethod? then LegacyRefused
                          else if rejectMethod.Drop? then LegacyDropped
                          else NilTransport);
        case Answer(message) => outcome := Some(LegacyAnswered(message));
      }
      assert SettledAs(w, actions, r, from, s.rule, outcome.value);
      return;
    }
    query := SelectionQuery(w, actions, s);
    var reply := ReplyTo(w, query.value);
    var check := s.Selected? && w.addressLimit(s.rule);
    retry := check && if r.lookup then !reply.Good? else reply.Rejected?;
  }

  /** Attempts never go back: rule numbers strictly increase, up to the default server's. */
  ghost predicate Increasing(queries: seq<Query>, limit: nat) {
    && (forall i, j :: 0 <= i < j < |queries| ==> queries[i].rule < queries[j].rule)
    && (forall i :: 0 <= i < |queries| ==> queries[i].rule <= limit)
  }

  lemma IncreasingAppend(init: seq<Query>, last: Query, limit: nat)
    requires Increasing(init, limit) && StartOf(init, |init|) <= last.rule <= limit
    ensures Increasing(init + [last], limit)
  {
  }

  lemma {:induction false} AttemptsIncrease(
    w: LegacyWorld, actions: seq<RuntimeAction>, r: Request, queries: seq<Query>)
    requires Attempts(w, actions, r, queries)
    ensures Increasing(queries, |actions|) && |queries| <= StartOf(queries, |queries|) <= |actions| + 1
  {
    if queries != [] {
      var init, last := queries[..|queries| - 1], queries[|queries| - 1];
      AttemptsIncrease(w, actions, r, init);
      MakesBehind(w, actions, r, StartOf(init, |init|), last);
      IncreasingAppend(init, last, |actions|);
      assert queries == init + [last];
    }
  }

  /** The retry loops of `Exchange` and `Lookup`. */
  method Resolve(w: LegacyWorld, actions: seq<RuntimeAction>, r: Request)
    returns (outcome: LegacyOutcome, queries: seq<Query>)
    ensures Attempts(w, actions, r, queries)
    // rules are never tried twice, so the loop ends after at most one query per rule and the default server's
    ensures Increasing(queries, |actions|) && |queries| <= |actions| + 1
    // the answer is that of the last query, which was not retried, or of the rule selected behind it
    ensures outcome.Replied? ==>
              queries != [] && outcome.reply == ReplyTo(w, queries[|queries| - 1])
              && Final(w, actions, queries[|queries| - 1], r.lookup)
    ensures !outcome.Replied? ==> SettledWith(w, actions, r, StartOf(queries, |queries|), outcome)
    ensures outcome.NilTransport? ==> !r.lookup && exists k :: 0 <= k < |actions| && actions[k] == RejectWith(Reply)
  {
    queries := [];
    var from := 0;
    while true
      invariant from == StartOf(queries, |queries|) <= |actions|
      invariant Attempts(w, actions, r, queries)
      invariant queries != [] ==> Retries(w, actions, queries[|queries| - 1], r.lookup)
      decreases |actions| - from
    {
      AttemptsIncrease(w, actions, r, queries);
      var settled, query, retry := Round(w, actions, r, from);
      if settled.Some? { return settled.value, queries; }
      MakesBehind(w, actions, r, from, query.value);
      assert (queries + [query.value])[..|queries|] == queries;
      queries := queries + [query.value];
      if !retry {
        AttemptsIncrease(w, actions, r, queries);
        RetriesMeaning(w, actions, query.value, r.lookup);
        return Replied(ReplyTo(w, query.value)), queries;
      }
      from := query.value.rule + 1;
    }
  }

  /** A legacy lookup queries no fakeip server either. */
  lemma {:induction false} LegacyAvoidsFakeIP(
    w: LegacyWorld, actions: seq<RuntimeAction>, r: Request, queries: seq<Query>)
    requires Attempts(w, actions, r, queries) && !r.allowFakeIP && !w.fallback.fakeIP
    ensures NoFakeIP(queries)
  {
    if queries != [] {
      var init, last := queries[..|queries| - 1], queries[|queries| - 1];
      LegacyAvoidsFakeIP(w, actions, r, init);
      MakesBehind(w, actions, r, StartOf(init, |init|), last);
    }
  }

  /** The actions that the legacy walk passes over do not occur in rules accepted in legacy mode. */
  lemma AcceptedNeverEvaluates(rules: seq<Rule>, router: Option<RuleSets>, fakeIP: set<string>, k: nat)
    requires Accepted(rules, router, fakeIP, true) && k < |rules|
    ensures !RuntimeActions(rules)[k].EvaluateWith? && !RuntimeActions(rules)[k].RespondNow?
  {
    if !rules[k].UnknownType? {
      assert Inside(rules[k], rules[k]);
      LegacyHasNoResponseRules(router, rules, rules[k]);
    }
  }

  /** Accepted rules never reach the client without a server. */
  lemma AcceptedNeverReply(rules: seq<Rule>, router: Option<RuleSets>, fakeIP: set<string>, k: nat)
    requires Accepted(rules, router, fakeIP, true) && k < |rules|
    ensures RuntimeActions(rules)[k] != RejectWith(Reply)
  {
  }
}
