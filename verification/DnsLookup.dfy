/** Validator, default-server check and rule walk together: an address lookup never asks a fakeip server. */
module DnsLookup {
  import opened Wrappers
  import opened DnsRules
  import opened DnsExchange
  import L = DnsLegacy
  import T = DnsTransports
  import I = ComponentIndex

  function AsTransport(x: I.Item): Transport {
    Transport(x.tag, x.kind == T.FAKEIP)
  }

  function Transports(s: T.State): map<string, Transport> {
    map t | t in s.byTag :: AsTransport(s.byTag[t])
  }

  /** The servers as `Start` leaves them: any creations, then the built-in server where a default is missing. */
  ghost predicate Serves(
    fallback: Transport, transports: map<string, Transport>, defaultTag: string, created: seq<I.Item>,
    builtIn: Option<I.Item>)
  {
    var (s, outcome) := T.Prepared(T.AllCreated(T.EMPTY, defaultTag, created), defaultTag, builtIn);
    outcome.Done? && fallback == AsTransport(s.default.value) && transports == Transports(s)
  }

  lemma FallbackIsUsable(
    fallback: Transport, transports: map<string, Transport>, defaultTag: string, created: seq<I.Item>,
    builtIn: Option<I.Item>)
    requires Serves(fallback, transports, defaultTag, created, builtIn)
    requires builtIn.Some? ==> builtIn.value.kind != T.FAKEIP
    ensures !fallback.fakeIP
  {
    T.CreationsKeepDefaultUsable(defaultTag, T.EMPTY, created);
  }

  /**
   For any servers created from scratch and any rules accepted against them, in the new mode: both walks of
   a lookup run like this one, whatever matches and whatever the client answers.
   */
  lemma NewModeLookup(
    w: World, defaultTag: string, created: seq<I.Item>, builtIn: Option<I.Item>, rules: seq<Rule>,
    router: Option<RuleSets>, options: QueryOptions)
    requires Serves(w.fallback, w.transports, defaultTag, created, builtIn)
    requires builtIn.Some? ==> builtIn.value.kind != T.FAKEIP
    requires Accepted(rules, router, FakeIPServers(w.transports), false)
    ensures NoFakeIP(Interpret(w, RuntimeActions(rules), 0, Memory(options, None), false, false).queries)
  {
    FallbackIsUsable(w.fallback, w.transports, defaultTag, created, builtIn);
    LookupAvoidsFakeIP(w, rules, router, options);
  }

  /** The same in legacy mode, for every query the retry loop makes. */
  lemma LegacyModeLookup(
    w: L.LegacyWorld, defaultTag: string, created: seq<I.Item>, builtIn: Option<I.Item>, rules: seq<Rule>,
    options: QueryOptions, queries: seq<Query>)
    requires Serves(w.fallback, w.transports, defaultTag, created, builtIn)
    requires builtIn.Some? ==> builtIn.value.kind != T.FAKEIP
    requires L.Attempts(w, RuntimeActions(rules), L.Request(options, false, true, true), queries)
    ensures NoFakeIP(queries)
  {
    FallbackIsUsable(w.fallback, w.transports, defaultTag, created, builtIn);
    L.LegacyAvoidsFakeIP(w, RuntimeActions(rules), L.Request(options, false, true, true), queries);
  }
}
