/**
 The route rule walk, run twice for one connection: first in pre-match mode, on bare metadata, then in full
 mode. Matching, resolving and sniffing are functions of the world.
 */
module RouteMatch {
  import opened Wrappers

  datatype Network = Tcp | Udp | Icmp

  /** A socket address; an address or port of 0 and an empty name are unset. */
  datatype Destination = Destination(address: nat, port: nat, fqdn: string) {
    predicate IsValid() { address != 0 || fqdn != "" }
  }

  datatype Metadata = Metadata(
    network: Network, destination: Destination, addresses: seq<nat>, original: Destination,
    networkStrategy: Option<nat>, networkTypes: seq<nat>, fallbackNetworkTypes: seq<nat>, fallbackDelay: nat,
    udpDisableDomainUnmapping: bool, udpConnect: bool, udpTimeout: nat,
    tlsFragment: bool, tlsFragmentFallbackDelay: nat, tlsRecordFragment: bool, sniffed: nat)

  datatype RouteOptions = RouteOptions(
    overrideAddress: Destination, overridePort: nat,
    networkStrategy: Option<nat>, networkTypes: seq<nat>, fallbackNetworkTypes: seq<nat>, fallbackDelay: nat,
    udpDisableDomainUnmapping: bool, udpConnect: bool, udpTimeout: nat,
    tlsFragment: bool, tlsFragmentFallbackDelay: nat, tlsRecordFragment: bool)

  datatype Action =
    | Route(options: RouteOptions)
    | ApplyOptions(options: RouteOptions)
    | Bypass(outbound: string)
    | Reject
    | HijackDns
    | Sniff
    | Resolve
    | OtherAction

  /**
   `resolve` returns the addresses of a domain destination; `sniff` what it read from the payload and the
   destination, which it may override. Nothing is a fatal error.
   */
  datatype World = World(
    matches: (nat, Metadata) -> bool,
    resolve: (nat, Metadata) -> Option<seq<nat>>,
    sniff: (nat, Metadata) -> Option<(Destination, nat)>)

  datatype Mode = Mode(preMatch: bool, supportBypass: bool)

  /** `rule` is the selected rule; the metadata is as the walk left it. */
  datatype Outcome =
    | Selected(rule: nat, metadata: Metadata)
    | NoRule(metadata: Metadata)
    | Fatal

  predicate Overrides(o: RouteOptions) {
    o.overrideAddress.IsValid() || o.overridePort > 0
  }

  function Redirected(m: Metadata, o: RouteOptions): Metadata {
    var target :=
      if o.overrideAddress.IsValid()
      then Destination(o.overrideAddress.address, m.destination.port, o.overrideAddress.fqdn) else m.destination;
    m.(original := if Overrides(o) && !m.original.IsValid() then m.destination else m.original,
       destination := if o.overridePort > 0 then target.(port := o.overridePort) else target,
       addresses := if o.overrideAddress.IsValid() then [] else m.addresses)
  }

  function WithNetworkOptions(m: Metadata, o: RouteOptions): Metadata {
    m.(networkStrategy := if o.networkStrategy.Some? then o.networkStrategy else m.networkStrategy,
       networkTypes := if o.networkTypes != [] then o.networkTypes else m.networkTypes,
       fallbackNetworkTypes := if o.fallbackNetworkTypes != [] then o.fallbackNetworkTypes else m.fallbackNetworkTypes,
       fallbackDelay := if o.fallbackDelay != 0 then o.fallbackDelay else m.fallbackDelay)
  }

  function WithTransportOptions(m: Metadata, o: RouteOptions): Metadata {
    m.(udpDisableDomainUnmapping := m.udpDisableDomainUnmapping || o.udpDisableDomainUnmapping,
       udpConnect := m.udpConnect || o.udpConnect,
       udpTimeout := if o.udpTimeout > 0 then o.udpTimeout else m.udpTimeout,
       tlsFragment := m.tlsFragment || o.tlsFragment,
       tlsFragmentFallbackDelay := if o.tlsFragment then o.tlsFragmentFallbackDelay else m.tlsFragmentFallbackDelay,
       tlsRecordFragment := m.tlsRecordFragment || o.tlsRecordFragment)
  }

  function Applied(m: Metadata, o: RouteOptions): Metadata {
    WithTransportOptions(WithNetworkOptions(Redirected(m, o), o), o)
  }

  /** The walk ends at a matched rule with this action. */
  predicate Ends(action: Action, mode: Mode, network: Network) {
    match action
    case Route(_) | Reject | HijackDns => true
    case Bypass(outbound) => mode.supportBypass || outbound != ""
    case Sniff => mode.preMatch && !network.Icmp?
    case _ => false
  }

  function Resolved(w: World, k: nat, m: Metadata): Option<Metadata> {
    if m.destination.fqdn == "" then Some(m)
    else
      var addresses := w.resolve(k, m);
      if addresses.None? then None else Some(m.(addresses := addresses.value))
  }

  function Sniffed(w: World, k: nat, m: Metadata): Option<Metadata> {
    var read := w.sniff(k, m);
    if read.None? then None else Some(m.(destination := read.value.0, sniffed := read.value.1))
  }

  /** What a matched rule makes of the metadata. */
  function Effect(w: World, actions: seq<Action>, k: nat, m: Metadata, mode: Mode): Option<Metadata>
    requires k < |actions|
  {
    match actions[k]
    case Route(o) => Some(Applied(m, o))
    case ApplyOptions(o) => Some(Applied(m, o))
    case Sniff => if mode.preMatch then Some(m) else Sniffed(w, k, m)
    case Resolve => Resolved(w, k, m)
    case _ => Some(m)
  }

  function Walk(w: World, actions: seq<Action>, k: nat, m: Metadata, mode: Mode): Outcome
    requires k <= |actions|
    decreases |actions| - k
  {
    if k == |actions| then NoRule(m)
    else if !w.matches(k, m) then Walk(w, actions, k + 1, m, mode)
    else
      var after := Effect(w, actions, k, m, mode);
      if after.None? then Fatal
      else if Ends(actions[k], mode, m.network) then Selected(k, after.value)
      else Walk(w, actions, k + 1, after.value, mode)
  }

  method ApplyOverrides(m: Metadata, o: RouteOptions) returns (r: Metadata)
    ensures r == Redirected(m, o)
  {
    r := m;
    if (o.overrideAddress.IsValid() || o.overridePort > 0) && !r.original.IsValid() {
      r := r.(original := r.destination);
    }
    if o.overrideAddress.IsValid() {
      r := r.(destination := Destination(o.overrideAddress.address, r.destination.port, o.overrideAddress.fqdn),
              addresses := []);
    }
    if o.overridePort > 0 { r := r.(destination := r.destination.(port := o.overridePort)); }
  }

  method ApplyNetworkOptions(m: Metadata, o: RouteOptions) returns (r: Metadata)
    ensures r == WithNetworkOptions(m, o)
  {
    r := m;
    if o.networkStrategy.Some? { r := r.(networkStrategy := o.networkStrategy); }
    if |o.networkTypes| > 0 { r := r.(networkTypes := o.networkTypes); }
    if |o.fallbackNetworkTypes| > 0 { r := r.(fallbackNetworkTypes := o.fallbackNetworkTypes); }
    if o.fallbackDelay != 0 { r := r.(fallbackDelay := o.fallbackDelay); }
  }

  method ApplyTransportOptions(m: Metadata, o: RouteOptions) returns (r: Metadata)
    ensures r == WithTransportOptions(m, o)
  {
    r := m;
    if o.udpDisableDomainUnmapping { r := r.(udpDisableDomainUnmapping := true); }
    if o.udpConnect { r := r.(udpConnect := true); }
    if o.udpTimeout > 0 { r := r.(udpTimeout := o.udpTimeout); }
    if o.tlsFragment { r := r.(tlsFragment := true, tlsFragmentFallbackDelay := o.tlsFragmentFallbackDelay); }
    if o.tlsRecordFragment { r := r.(tlsRecordFragment := true); }
  }

  /** `matchRule`, from the loop over the rules on. */
  method MatchRule(w: World, actions: seq<Action>, start: Metadata, mode: Mode) returns (outcome: Outcome)
    ensures outcome == Walk(w, actions, 0, start, mode)
  {
    var metadata := start;
    for k := 0 to |actions|
      invariant Walk(w, actions, 0, start, mode) == Walk(w, actions, k, metadata, mode)
    {
      if !w.matches(k, metadata) { continue; }
      var network := metadata.network;
      if actions[k].Route? || actions[k].ApplyOptions? {
        metadata := ApplyOverrides(metadata, actions[k].options);
        metadata := ApplyNetworkOptions(metadata, actions[k].options);
        metadata := ApplyTransportOptions(metadata, actions[k].options);
      }
      match actions[k] {
        case Sniff =>
          if !mode.preMatch {
            var read := w.sniff(k, metadata);
            if read.None? { return Fatal; }
            metadata := metadata.(destination := read.value.0, sniffed := read.value.1);
          } else if !network.Icmp? {
            return Selected(k, metadata);
          }
        case Resolve =>
          if metadata.destination.fqdn != "" {
            var addresses := w.resolve(k, metadata);
            if addresses.None? { return Fatal; }
            metadata := metadata.(addresses := addresses.value);
          }
        case _ =>
      }
      match actions[k] {
        case Route(_) => return Selected(k, metadata);
        case Reject => return Selected(k, metadata);
        case HijackDns => return Selected(k, metadata);
        case Bypass(outbound) =>
          if !mode.supportBypass && outbound == "" { continue; }
          return Selected(k, metadata);
        case _ =>
      }
    }
    outcome := NoRule(metadata);
  }

  // ---------- The selected rule and the final metadata, from the rules visited ----------

  /** A matched rule with this action ends the walk. */
  predicate Settling(action: Action, mode: Mode, network: Network) {
    || action.Route? || action.Reject? || action.HijackDns?
    || (action.Bypass? && (action.outbound != "" || mode.supportBypass))
    || (action.Sniff? && mode.preMatch && network != Icmp)
  }

  function OptionsAt(w: World, actions: seq<Action>, k: nat, m: Metadata): Option<RouteOptions> {
    if k < |actions| && w.matches(k, m) && (actions[k].Route? || actions[k].ApplyOptions?)
    then Some(actions[k].options) else None
  }

  /** What is read from the payload, in full matching only. */
  function ReadAt(w: World, actions: seq<Action>, mode: Mode, k: nat, m: Metadata): Option<(Destination, nat)> {
    if k < |actions| && w.matches(k, m) && actions[k].Sniff? && !mode.preMatch then w.sniff(k, m) else None
  }

  function LookupAt(w: World, actions: seq<Action>, k: nat, m: Metadata): Option<seq<nat>> {
    if k < |actions| && w.matches(k, m) && actions[k].Resolve? && m.destination.fqdn != "" then w.resolve(k, m)
    else None
  }

  function Pick<V>(chosen: Option<V>, otherwise: V): V {
    if chosen.Some? then chosen.value else otherwise
  }

  function NonZero(n: nat): Option<nat> {
    if n != 0 then Some(n) else None
  }

  /** A valid address replaces the host, a port the port. */
  function Overridden(d: Destination, o: RouteOptions): Destination {
    var host := if o.overrideAddress.IsValid() then o.overrideAddress else d;
    Destination(host.address, Pick(NonZero(o.overridePort), d.port), host.fqdn)
  }

  function NewDestination(w: World, actions: seq<Action>, mode: Mode, k: nat, m: Metadata): Option<Destination> {
    var o, read := OptionsAt(w, actions, k, m), ReadAt(w, actions, mode, k, m);
    if o.Some? then Some(Overridden(m.destination, o.value))
    else if read.Some? then Some(read.value.0) else None
  }

  /** The addresses of a resolved domain; a new host voids them. */
  function NewAddresses(w: World, actions: seq<Action>, k: nat, m: Metadata): Option<seq<nat>> {
    var o := OptionsAt(w, actions, k, m);
    if o.Some? then if o.value.overrideAddress.IsValid() then Some([]) else None else LookupAt(w, actions, k, m)
  }

  function NewOriginal(w: World, actions: seq<Action>, k: nat, m: Metadata): Option<Destination> {
    var o := OptionsAt(w, actions, k, m);
    if o.Some? && (o.value.overrideAddress.IsValid() || o.value.overridePort > 0) && !m.original.IsValid()
    then Some(m.destination) else None
  }

  /** The destination side of the metadata before and after rule `k`. */
  ghost predicate Redirects(w: World, actions: seq<Action>, mode: Mode, k: nat, m: Metadata, next: Metadata) {
    && next.network == m.network
    && next.destination == Pick(NewDestination(w, actions, mode, k, m), m.destination)
    && next.addresses == Pick(NewAddresses(w, actions, k, m), m.addresses)
    && next.original == Pick(NewOriginal(w, actions, k, m), m.original)
    && (var read := ReadAt(w, actions, mode, k, m); next.sniffed == if read.Some? then read.value.1 else m.sniffed)
  }

  /** The latest of the options that sets something, or what there was before. */
  function Latest<V>(options: seq<RouteOptions>, f: RouteOptions -> Option<V>, base: V): V {
    if options == [] then base
    else Pick(f(options[|options| - 1]), Latest(options[..|options| - 1], f, base))
  }

  lemma {:induction false} LatestIsLast<V>(options: seq<RouteOptions>, f: RouteOptions -> Option<V>, base: V)
    ensures
      || (Latest(options, f, base) == base && forall i :: 0 <= i < |options| ==> f(options[i]).None?)
      || exists i :: 0 <= i < |options| && f(options[i]) == Some(Latest(options, f, base))
                     && forall j :: i < j < |options| ==> f(options[j]).None?
  {
    if options != [] {
      var init, last := options[..|options| - 1], options[|options| - 1];
      LatestIsLast(init, f, base);
      if f(last).None? {
        assert forall i :: 0 <= i < |init| ==> init[i] == options[i];
      }
    }
  }

  // What options set each field to, if they set it: a flag is only ever raised.

  function SetsNetworkStrategy(o: RouteOptions): Option<Option<nat>> {
    if o.networkStrategy.Some? then Some(o.networkStrategy) else None
  }

  function SetsNetworkTypes(o: RouteOptions): Option<seq<nat>> {
    if o.networkTypes != [] then Some(o.networkTypes) else None
  }

  function SetsFallbackNetworkTypes(o: RouteOptions): Option<seq<nat>> {
    if o.fallbackNetworkTypes != [] then Some(o.fallbackNetworkTypes) else None
  }

  function SetsFallbackDelay(o: RouteOptions): Option<nat> {
    if o.fallbackDelay != 0 then Some(o.fallbackDelay) else None
  }

  function SetsUdpDisableDomainUnmapping(o: RouteOptions): Option<bool> {
    if o.udpDisableDomainUnmapping then Some(true) else None
  }

  function SetsUdpConnect(o: RouteOptions): Option<bool> {
    if o.udpConnect then Some(true) else None
  }

  function SetsUdpTimeout(o: RouteOptions): Option<nat> {
    if o.udpTimeout > 0 then Some(o.udpTimeout) else None
  }

  function SetsTlsFragment(o: RouteOptions): Option<bool> {
    if o.tlsFragment then Some(true) else None
  }

  function SetsTlsFragmentFallbackDelay(o: RouteOptions): Option<nat> {
    if o.tlsFragment then Some(o.tlsFragmentFallbackDelay) else None
  }

  function SetsTlsRecordFragment(o: RouteOptions): Option<bool> {
    if o.tlsRecordFragment then Some(true) else None
  }

  /** Every field is as the latest options that set it say. */
  ghost predicate NetworkAsSet(options: seq<RouteOptions>, start: Metadata, end: Metadata) {
    && end.networkStrategy == Latest(options, SetsNetworkStrategy, start.networkStrategy)
    && end.networkTypes == Latest(options, SetsNetworkTypes, start.networkTypes)
    && end.fallbackNetworkTypes == Latest(options, SetsFallbackNetworkTypes, start.fallbackNetworkTypes)
    && end.fallbackDelay == Latest(options, SetsFallbackDelay, start.fallbackDelay)
  }

  ghost predicate UdpAsSet(options: seq<RouteOptions>, start: Metadata, end: Metadata) {
    && end.udpDisableDomainUnmapping == Latest(options, SetsUdpDisableDomainUnmapping, start.udpDisableDomainUnmapping)
    && end.udpConnect == Latest(options, SetsUdpConnect, start.udpConnect)
    && end.udpTimeout == Latest(options, SetsUdpTimeout, start.udpTimeout)
  }

  ghost predicate TlsAsSet(options: seq<RouteOptions>, start: Metadata, end: Metadata) {
    && end.tlsFragment == Latest(options, SetsTlsFragment, start.tlsFragment)
    && end.tlsFragmentFallbackDelay == Latest(options, SetsTlsFragmentFallbackDelay, start.tlsFragmentFallbackDelay)
    && end.tlsRecordFragment == Latest(options, SetsTlsRecordFragment, start.tlsRecordFragment)
  }

  ghost predicate OptionsAsSet(options: seq<RouteOptions>, start: Metadata, end: Metadata) {
    NetworkAsSet(options, start, end) && UdpAsSet(options, start, end) && TlsAsSet(options, start, end)
  }

  /** One more rule: it applies its options or leaves these fields alone. */
  function AppliedAt(w: World, actions: seq<Action>, k: nat, m: Metadata): seq<RouteOptions> {
    var o := OptionsAt(w, actions, k, m); if o.Some? then [o.value] else []
  }

  /** The options of the matched rules before rule `n`, in order. */
  ghost function Gathered(w: World, actions: seq<Action>, trail: seq<Metadata>, n: nat): seq<RouteOptions>
    requires n < |trail|
  {
    if n == 0 then [] else Gathered(w, actions, trail, n - 1) + AppliedAt(w, actions, n - 1, trail[n - 1])
  }

  /** Rule `k` took the metadata from `m` to `next`. */
  ghost predicate Leaves(w: World, actions: seq<Action>, mode: Mode, k: nat, m: Metadata, next: Metadata) {
    Redirects(w, actions, mode, k, m, next) && OptionsAsSet(AppliedAt(w, actions, k, m), m, next)
  }

  /** The metadata as each visited rule found it, from the start on. */
  ghost predicate Trail(w: World, actions: seq<Action>, mode: Mode, start: Metadata, trail: seq<Metadata>) {
    && 0 < |trail| <= |actions| + 1 && trail[0] == start
    && forall k :: 0 <= k < |trail| - 1 ==> Leaves(w, actions, mode, k, trail[k], trail[k + 1])
  }

  ghost predicate SettledAt(w: World, actions: seq<Action>, mode: Mode, trail: seq<Metadata>, k: nat)
    requires k < |trail| && k < |actions|
  {
    w.matches(k, trail[k]) && Settling(actions[k], mode, trail[k].network)
  }

  /** A lookup that fails, or a payload that cannot be read. */
  predicate BrokenAt(w: World, action: Action, mode: Mode, k: nat, m: Metadata) {
    && w.matches(k, m)
    && (|| (action.Resolve? && m.destination.fqdn != "" && w.resolve(k, m).None?)
        || (action.Sniff? && !mode.preMatch && w.sniff(k, m).None?))
  }

  /** The first `n` rules were passed without settling or breaking anything. */
  ghost predicate Passed(w: World, actions: seq<Action>, mode: Mode, trail: seq<Metadata>, n: nat)
    requires n <= |trail| && n <= |actions|
  {
    forall k :: 0 <= k < n ==>
      !SettledAt(w, actions, mode, trail, k) && !BrokenAt(w, actions[k], mode, k, trail[k])
  }

  /**
   The outcome, from the rules visited: the first settling one, with the metadata it left; no rule, if all were
   passed; or a fatal error at the first that broke.
   */
  ghost predicate Explains(
    w: World, actions: seq<Action>, mode: Mode, start: Metadata, trail: seq<Metadata>, outcome: Outcome)
  {
    && Trail(w, actions, mode, start, trail)
    && match outcome
       case Selected(r, end) =>
         && r < |actions| && |trail| == r + 2 && end == trail[r + 1]
         && Passed(w, actions, mode, trail, r) && SettledAt(w, actions, mode, trail, r)
       case NoRule(end) =>
         && |trail| == |actions| + 1 && end == trail[|actions|]
         && Passed(w, actions, mode, trail, |actions|)
       case Fatal =>
         && |trail| <= |actions|
         && Passed(w, actions, mode, trail, |trail| - 1)
         && BrokenAt(w, actions[|trail| - 1], mode, |trail| - 1, trail[|trail| - 1])
  }

  ghost predicate Explained(w: World, actions: seq<Action>, mode: Mode, start: Metadata, outcome: Outcome) {
    exists trail :: Explains(w, actions, mode, start, trail, outcome)
  }

  lemma AppliedNetwork(m: Metadata, o: RouteOptions)
    ensures NetworkAsSet([o], m, Applied(m, o))
  {
    assert [o][..0] == [];
  }

  lemma AppliedUdp(m: Metadata, o: RouteOptions)
    ensures UdpAsSet([o], m, Applied(m, o))
  {
    assert [o][..0] == [];
  }

  lemma AppliedTls(m: Metadata, o: RouteOptions)
    ensures TlsAsSet([o], m, Applied(m, o))
  {
    assert [o][..0] == [];
  }

  lemma AppliedRedirects(m: Metadata, o: RouteOptions)
    ensures Applied(m, o).destination == Overridden(m.destination, o)
    ensures Applied(m, o).addresses == if o.overrideAddress.IsValid() then [] else m.addresses
    ensures Applied(m, o).original ==
            if (o.overrideAddress.IsValid() || o.overridePort > 0) && !m.original.IsValid() then m.destination
            else m.original
    ensures Applied(m, o).sniffed == m.sniffed && Applied(m, o).network == m.network
  {
  }

  lemma ApplyLeaves(w: World, actions: seq<Action>, mode: Mode, k: nat, m: Metadata, o: RouteOptions)
    requires OptionsAt(w, actions, k, m) == Some(o)
    ensures Leaves(w, actions, mode, k, m, Applied(m, o))
  {
    AppliedRedirects(m, o);
    AppliedNetwork(m, o);
    AppliedUdp(m, o);
    AppliedTls(m, o);
  }

  /** A rule without options touches the destination side only. */
  lemma OtherLeaves(w: World, actions: seq<Action>, mode: Mode, k: nat, m: Metadata, next: Metadata)
    requires OptionsAt(w, actions, k, m).None? && Redirects(w, actions, mode, k, m, next)
    requires next == m.(destination := next.destination, addresses := next.addresses, sniffed := next.sniffed)
    ensures Leaves(w, actions, mode, k, m, next)
  {
  }

  /** An unmatched rule, and any that neither has options nor looks anything up nor reads. */
  lemma IdleLeaves(w: World, actions: seq<Action>, mode: Mode, k: nat, m: Metadata)
    requires OptionsAt(w, actions, k, m).None? && ReadAt(w, actions, mode, k, m).None?
    requires LookupAt(w, actions, k, m).None?
    ensures Leaves(w, actions, mode, k, m, m)
  {
    OtherLeaves(w, actions, mode, k, m, m);
  }

  lemma ResolveLeaves(w: World, actions: seq<Action>, mode: Mode, k: nat, m: Metadata)
    requires k < |actions| && w.matches(k, m) && actions[k].Resolve? && Resolved(w, k, m).Some?
    ensures Leaves(w, actions, mode, k, m, Resolved(w, k, m).value)
  {
    OtherLeaves(w, actions, mode, k, m, Resolved(w, k, m).value);
  }

  lemma SniffLeaves(w: World, actions: seq<Action>, mode: Mode, k: nat, m: Metadata)
    requires k < |actions| && w.matches(k, m) && actions[k].Sniff? && !mode.preMatch && Sniffed(w, k, m).Some?
    ensures Leaves(w, actions, mode, k, m, Sniffed(w, k, m).value)
  {
    OtherLeaves(w, actions, mode, k, m, Sniffed(w, k, m).value);
  }

  lemma EffectBreaks(w: World, actions: seq<Action>, mode: Mode, k: nat, m: Metadata)
    requires k < |actions| && w.matches(k, m)
    ensures Effect(w, actions, k, m, mode).None? <==> BrokenAt(w, actions[k], mode, k, m)
  {
  }

  lemma EffectLeaves(w: World, actions: seq<Action>, mode: Mode, k: nat, m: Metadata)
    requires k < |actions| && w.matches(k, m) && Effect(w, actions, k, m, mode).Some?
    ensures Leaves(w, actions, mode, k, m, Effect(w, actions, k, m, mode).value)
  {
    match actions[k]
    case Route(o) => ApplyLeaves(w, actions, mode, k, m, o);
    case ApplyOptions(o) => ApplyLeaves(w, actions, mode, k, m, o);
    case Resolve => ResolveLeaves(w, actions, mode, k, m);
    case Sniff => if mode.preMatch { IdleLeaves(w, actions, mode, k, m); } else { SniffLeaves(w, actions, mode, k, m); }
    case _ => IdleLeaves(w, actions, mode, k, m);
  }

  ghost predicate OnTheWay(w: World, actions: seq<Action>, mode: Mode, start: Metadata, trail: seq<Metadata>) {
    Trail(w, actions, mode, start, trail) && Passed(w, actions, mode, trail, |trail| - 1)
  }

  lemma TrailAppend(w: World, actions: seq<Action>, mode: Mode, start: Metadata, trail: seq<Metadata>, next: Metadata)
    requires OnTheWay(w, actions, mode, start, trail) && |trail| <= |actions|
    requires Leaves(w, actions, mode, |trail| - 1, trail[|trail| - 1], next)
    ensures Trail(w, actions, mode, start, trail + [next]) && Passed(w, actions, mode, trail + [next], |trail| - 1)
    ensures SettledAt(w, actions, mode, trail, |trail| - 1) ==>
              Explains(w, actions, mode, start, trail + [next], Selected(|trail| - 1, next))
    ensures !SettledAt(w, actions, mode, trail, |trail| - 1) &&
            !BrokenAt(w, actions[|trail| - 1], mode, |trail| - 1, trail[|trail| - 1])
            ==> OnTheWay(w, actions, mode, start, trail + [next])
  {
    var all := trail + [next];
    forall k | 0 <= k < |all| - 1 ensures Leaves(w, actions, mode, k, all[k], all[k + 1]) {
      assert k < |trail| - 1 ==> Leaves(w, actions, mode, k, trail[k], trail[k + 1]);
    }
    forall k | 0 <= k < |trail| - 1
      ensures !SettledAt(w, actions, mode, all, k) && !BrokenAt(w, actions[k], mode, k, all[k])
    {
      assert !SettledAt(w, actions, mode, trail, k) && !BrokenAt(w, actions[k], mode, k, trail[k]);
    }
  }

  lemma {:induction false} WalkExplainedFrom(
    w: World, actions: seq<Action>, mode: Mode, start: Metadata, trail: seq<Metadata>)
    requires OnTheWay(w, actions, mode, start, trail)
    ensures Explained(w, actions, mode, start, Walk(w, actions, |trail| - 1, trail[|trail| - 1], mode))
    decreases |actions| + 1 - |trail|
  {
    var k, m := |trail| - 1, trail[|trail| - 1];
    if k == |actions| {
      assert Explains(w, actions, mode, start, trail, NoRule(m));
    } else if !w.matches(k, m) {
      IdleLeaves(w, actions, mode, k, m);
      TrailAppend(w, actions, mode, start, trail, m);
      WalkExplainedFrom(w, actions, mode, start, trail + [m]);
    } else {
      EffectBreaks(w, actions, mode, k, m);
      var after := Effect(w, actions, k, m, mode);
      if after.None? {
        assert Explains(w, actions, mode, start, trail, Fatal);
      } else {
        EffectLeaves(w, actions, mode, k, m);
        TrailAppend(w, actions, mode, start, trail, after.value);
        if !Settling(actions[k], mode, m.network) {
          WalkExplainedFrom(w, actions, mode, start, trail + [after.value]);
        }
      }
    }
  }

  /** Every outcome of the walk is explained by the rules it visited. */
  lemma WalkExplained(w: World, actions: seq<Action>, mode: Mode, start: Metadata)
    ensures Explained(w, actions, mode, start, Walk(w, actions, 0, start, mode))
  {
    WalkExplainedFrom(w, actions, mode, start, [start]);
  }

  lemma LeavesOnce(w: World, actions: seq<Action>, mode: Mode, k: nat, m: Metadata, a: Metadata, b: Metadata)
    requires Leaves(w, actions, mode, k, m, a) && Leaves(w, actions, mode, k, m, b)
    ensures a == b
  {
  }

  lemma {:induction false} TrailsAgree(
    w: World, actions: seq<Action>, mode: Mode, start: Metadata, a: seq<Metadata>, b: seq<Metadata>, k: nat)
    requires Trail(w, actions, mode, start, a) && Trail(w, actions, mode, start, b) && k < |a| && k < |b|
    ensures a[k] == b[k]
  {
    if k > 0 {
      TrailsAgree(w, actions, mode, start, a, b, k - 1);
      assert Leaves(w, actions, mode, k - 1, a[k - 1], a[k]) && Leaves(w, actions, mode, k - 1, b[k - 1], b[k]);
      LeavesOnce(w, actions, mode, k - 1, a[k - 1], a[k], b[k]);
    }
  }

  /** The rule at which an explained outcome stands: the selected one, the broken one, or none. */
  function Stop(actions: seq<Action>, trail: seq<Metadata>, outcome: Outcome): int {
    match outcome
    case Selected(r, _) => r
    case NoRule(_) => |actions|
    case Fatal => |trail| - 1
  }

  lemma StopsNoLater(
    w: World, actions: seq<Action>, mode: Mode, start: Metadata, a: seq<Metadata>, b: seq<Metadata>, x: Outcome,
    y: Outcome)
    requires Explains(w, actions, mode, start, a, x) && Explains(w, actions, mode, start, b, y)
    ensures Stop(actions, a, x) <= Stop(actions, b, y)
  {
    var stop := Stop(actions, b, y);
    if stop < Stop(actions, a, x) {
      TrailsAgree(w, actions, mode, start, a, b, stop);
    }
  }

  lemma OutcomesAgree(
    w: World, actions: seq<Action>, mode: Mode, start: Metadata, a: seq<Metadata>, b: seq<Metadata>, x: Outcome,
    y: Outcome)
    requires Explains(w, actions, mode, start, a, x) && Explains(w, actions, mode, start, b, y)
    ensures x == y
  {
    StopsNoLater(w, actions, mode, start, a, b, x, y);
    StopsNoLater(w, actions, mode, start, b, a, y, x);
    var stop := Stop(actions, a, x);
    TrailsAgree(w, actions, mode, start, a, b, stop);
    if stop + 1 < |a| && stop + 1 < |b| { TrailsAgree(w, actions, mode, start, a, b, stop + 1); }
  }

  /** The walk has the one outcome that the rules visited explain. */
  lemma WalkIff(w: World, actions: seq<Action>, mode: Mode, start: Metadata, outcome: Outcome)
    ensures Walk(w, actions, 0, start, mode) == outcome <==> Explained(w, actions, mode, start, outcome)
  {
    WalkExplained(w, actions, mode, start);
    if Explained(w, actions, mode, start, outcome) {
      var walked := Walk(w, actions, 0, start, mode);
      var a :| Explains(w, actions, mode, start, a, walked);
      var b :| Explains(w, actions, mode, start, b, outcome);
      OutcomesAgree(w, actions, mode, start, a, b, walked, outcome);
    }
  }

  lemma {:induction false} LatestAppend<V>(
    options: seq<RouteOptions>, more: seq<RouteOptions>, f: RouteOptions -> Option<V>, base: V)
    ensures Latest(options + more, f, base) == Latest(more, f, Latest(options, f, base))
  {
    if more == [] {
      assert options + more == options;
    } else {
      assert (options + more)[..|options + more| - 1] == options + more[..|more| - 1];
      LatestAppend(options, more[..|more| - 1], f, base);
    }
  }

  lemma AsSetAppend(options: seq<RouteOptions>, more: seq<RouteOptions>, start: Metadata, m: Metadata, end: Metadata)
    requires OptionsAsSet(options, start, m) && OptionsAsSet(more, m, end)
    ensures OptionsAsSet(options + more, start, end)
  {
    LatestAppend(options, more, SetsNetworkStrategy, start.networkStrategy);
    LatestAppend(options, more, SetsNetworkTypes, start.networkTypes);
    LatestAppend(options, more, SetsFallbackNetworkTypes, start.fallbackNetworkTypes);
    LatestAppend(options, more, SetsFallbackDelay, start.fallbackDelay);
    LatestAppend(options, more, SetsUdpDisableDomainUnmapping, start.udpDisableDomainUnmapping);
    LatestAppend(options, more, SetsUdpConnect, start.udpConnect);
    LatestAppend(options, more, SetsUdpTimeout, start.udpTimeout);
    LatestAppend(options, more, SetsTlsFragment, start.tlsFragment);
    LatestAppend(options, more, SetsTlsFragmentFallbackDelay, start.tlsFragmentFallbackDelay);
    LatestAppend(options, more, SetsTlsRecordFragment, start.tlsRecordFragment);
  }

  /** Wherever the walk stands, its network, UDP and TLS options are those last set by the rules matched so far. */
  lemma {:induction false} OptionsAreLatest(
    w: World, actions: seq<Action>, mode: Mode, start: Metadata, trail: seq<Metadata>, n: nat)
    requires Trail(w, actions, mode, start, trail) && n < |trail|
    ensures OptionsAsSet(Gathered(w, actions, trail, n), start, trail[n])
  {
    if n > 0 {
      OptionsAreLatest(w, actions, mode, start, trail, n - 1);
      var before, m := Gathered(w, actions, trail, n - 1), trail[n - 1];
      assert Leaves(w, actions, mode, n - 1, m, trail[n]);
      AsSetAppend(before, AppliedAt(w, actions, n - 1, m), start, m, trail[n]);
    }
  }

  /** Between two rules the destination and the addresses change only if a rule on the way sets them. */
  lemma {:induction false} UnsetStays(
    w: World, actions: seq<Action>, mode: Mode, start: Metadata, trail: seq<Metadata>, from: nat, n: nat)
    requires Trail(w, actions, mode, start, trail) && from <= n < |trail|
    ensures (forall k :: from <= k < n ==> NewAddresses(w, actions, k, trail[k]).None?) ==>
              trail[n].addresses == trail[from].addresses
    ensures (forall k :: from <= k < n ==> NewDestination(w, actions, mode, k, trail[k]).None?) ==>
              trail[n].destination == trail[from].destination
    decreases n
  {
    if from < n {
      UnsetStays(w, actions, mode, start, trail, from, n - 1);
      assert Leaves(w, actions, mode, n - 1, trail[n - 1], trail[n]);
    }
  }

  /** The addresses are those of the last domain resolved, unless a new host voided them since. */
  lemma AddressesAreLatest(
    w: World, actions: seq<Action>, mode: Mode, start: Metadata, trail: seq<Metadata>, j: nat, n: nat)
    requires Trail(w, actions, mode, start, trail) && j < n < |trail|
    requires NewAddresses(w, actions, j, trail[j]).Some?
    requires forall k :: j < k < n ==> NewAddresses(w, actions, k, trail[k]).None?
    ensures trail[n].addresses == NewAddresses(w, actions, j, trail[j]).value
  {
    assert Leaves(w, actions, mode, j, trail[j], trail[j + 1]);
    UnsetStays(w, actions, mode, start, trail, j + 1, n);
  }

  // ---------- Pre-match against full match ----------

  const FULL := Mode(false, false)

  /** What full matching does where pre-match stopped at rule `k`, for want of the payload or of the bypass. */
  predicate Deferred(action: Action) {
    action.Sniff? || (action.Bypass? && action.outbound == "")
  }

  /** ICMP brings neither a connection nor a packet connection, so there is nothing to sniff. */
  ghost predicate NothingToSniffOnIcmp(w: World) {
    forall k: nat, m: Metadata :: m.network.Icmp? ==> w.sniff(k, m) == Some((m.destination, m.sniffed))
  }

  /**
   Pre-match decides as full matching does: a rule it selects that is not
   deferred is selected by full matching with the same metadata; a deferred one is reached by full matching
   with the same metadata; no rule and fatal errors are the same in both.
   */
  lemma {:induction false} PreMatchAgrees(w: World, actions: seq<Action>, k: nat, m: Metadata, supportBypass: bool)
    requires k <= |actions| && NothingToSniffOnIcmp(w)
    ensures var pre := Walk(w, actions, k, m, Mode(true, supportBypass));
            var full := Walk(w, actions, k, m, FULL);
            match pre
            case Selected(r, after) =>
              && k <= r < |actions|
              && (!Deferred(actions[r]) ==> full == pre)
              && (Deferred(actions[r]) ==> w.matches(r, after) && full == Walk(w, actions, r, after, FULL))
            case NoRule(_) => full == pre
            case Fatal => full == pre
    decreases |actions| - k
  {
    if k < |actions| {
      if !w.matches(k, m) {
        PreMatchAgrees(w, actions, k + 1, m, supportBypass);
      } else {
        var after := Effect(w, actions, k, m, Mode(true, supportBypass));
        if after.Some? && !Ends(actions[k], Mode(true, supportBypass), m.network) {
          assert after.value.network == m.network;
          assert Effect(w, actions, k, m, FULL) == after && !Ends(actions[k], FULL, m.network);
          PreMatchAgrees(w, actions, k + 1, after.value, supportBypass);
        }
      }
    }
  }

  /** In particular a rejection seen by pre-match is the one full matching would come to. */
  lemma PreMatchRejectIsFinal(w: World, actions: seq<Action>, m: Metadata, supportBypass: bool, r: nat)
    requires NothingToSniffOnIcmp(w) && r < |actions| && actions[r].Reject?
    requires var pre := Walk(w, actions, 0, m, Mode(true, supportBypass)); pre.Selected? && pre.rule == r
    ensures Walk(w, actions, 0, m, FULL) == Walk(w, actions, 0, m, Mode(true, supportBypass))
  {
    PreMatchAgrees(w, actions, 0, m, supportBypass);
  }

  // ---------- The original destination ----------

  ghost predicate SniffKeepsDestination(w: World) {
    forall k, m :: w.sniff(k, m).Some? ==> w.sniff(k, m).value.0 == m.destination
  }

  /** From `m` to `end` the original was kept, or set to the destination, which otherwise did not change. */
  predicate OriginalKept(m: Metadata, end: Metadata) {
    && end.destination.IsValid()
    && (m.original.IsValid() ==> end.original == m.original)
    && (!m.original.IsValid() ==>
          end.original == m.destination || (end.original == m.original && end.destination == m.destination))
  }

  lemma EffectKeepsOriginal(w: World, actions: seq<Action>, k: nat, m: Metadata, mode: Mode)
    requires k < |actions| && SniffKeepsDestination(w) && m.destination.IsValid()
    ensures var after := Effect(w, actions, k, m, mode); after.Some? ==> OriginalKept(m, after.value)
  {
    if actions[k].Route? || actions[k].ApplyOptions? { AppliedDestination(m, actions[k].options); }
  }

  lemma AppliedDestination(m: Metadata, o: RouteOptions)
    ensures Applied(m, o).destination == Redirected(m, o).destination
    ensures Applied(m, o).original == Redirected(m, o).original
    ensures Applied(m, o).network == m.network
    ensures m.destination.IsValid() ==> OriginalKept(m, Redirected(m, o))
  {
  }

  /** As long as sniffing leaves the destination alone, an original recorded by the walk is the initial destination. */
  lemma {:induction false} OriginalIsInitial(w: World, actions: seq<Action>, k: nat, m: Metadata, mode: Mode)
    requires k <= |actions| && SniffKeepsDestination(w) && m.destination.IsValid()
    ensures var end := Walk(w, actions, k, m, mode); !end.Fatal? ==> OriginalKept(m, end.metadata)
    decreases |actions| - k
  {
    if k < |actions| {
      if !w.matches(k, m) {
        OriginalIsInitial(w, actions, k + 1, m, mode);
      } else {
        var after := Effect(w, actions, k, m, mode);
        EffectKeepsOriginal(w, actions, k, m, mode);
        if after.Some? && !Ends(actions[k], mode, m.network) {
          OriginalIsInitial(w, actions, k + 1, after.value, mode);
        }
      }
    }
  }

  /** The destination that the first rule to override one found. */
  ghost function FirstOverridden(w: World, actions: seq<Action>, k: nat, m: Metadata, mode: Mode): Option<Destination>
    requires k <= |actions|
    decreases |actions| - k
  {
    if k == |actions| then None
    else if !w.matches(k, m) then FirstOverridden(w, actions, k + 1, m, mode)
    else if OverridesAt(actions, k) then Some(m.destination)
    else
      var after := Effect(w, actions, k, m, mode);
      if after.None? || Ends(actions[k], mode, m.network) then None
      else FirstOverridden(w, actions, k + 1, after.value, mode)
  }

  /** Sniffing puts a domain name in place of a destination, never nothing. */
  ghost predicate SniffKeepsValid(w: World) {
    forall k: nat, m: Metadata :: m.destination.IsValid() && w.sniff(k, m).Some? ==> w.sniff(k, m).value.0.IsValid()
  }

  /** The walk never replaces a recorded original. */
  lemma {:induction false} RecordedOriginalStays(w: World, actions: seq<Action>, k: nat, m: Metadata, mode: Mode)
    requires k <= |actions| && m.original.IsValid()
    ensures var end := Walk(w, actions, k, m, mode); !end.Fatal? ==> end.metadata.original == m.original
    decreases |actions| - k
  {
    if k < |actions| {
      if !w.matches(k, m) {
        RecordedOriginalStays(w, actions, k + 1, m, mode);
      } else {
        var after := Effect(w, actions, k, m, mode);
        if after.Some? && !Ends(actions[k], mode, m.network) {
          RecordedOriginalStays(w, actions, k + 1, after.value, mode);
        }
      }
    }
  }

  predicate OverridesAt(actions: seq<Action>, k: nat)
    requires k < |actions|
  {
    (actions[k].Route? || actions[k].ApplyOptions?) && Overrides(actions[k].options)
  }

  lemma EffectRecords(w: World, actions: seq<Action>, k: nat, m: Metadata, mode: Mode)
    requires k < |actions| && SniffKeepsValid(w) && m.destination.IsValid() && !m.original.IsValid()
    ensures var after := Effect(w, actions, k, m, mode);
            after.Some? ==>
              && after.value.destination.IsValid()
              && after.value.original == if OverridesAt(actions, k) then m.destination else m.original
  {
    if actions[k].Route? || actions[k].ApplyOptions? { AppliedDestination(m, actions[k].options); }
  }

  /**
   However many rules override the destination, and whatever sniffing makes of it in between, the recorded
   original is the destination found by the first override; without an override nothing is recorded.
   */
  lemma {:induction false} OriginalIsFirst(w: World, actions: seq<Action>, k: nat, m: Metadata, mode: Mode)
    requires k <= |actions| && SniffKeepsValid(w) && m.destination.IsValid() && !m.original.IsValid()
    ensures var end := Walk(w, actions, k, m, mode);
            var first := FirstOverridden(w, actions, k, m, mode);
            !end.Fatal? ==> end.metadata.original == if first.Some? then first.value else m.original
    decreases |actions| - k
  {
    if k < |actions| {
      if !w.matches(k, m) {
        OriginalIsFirst(w, actions, k + 1, m, mode);
      } else {
        var after := Effect(w, actions, k, m, mode);
        EffectRecords(w, actions, k, m, mode);
        if after.Some? && !Ends(actions[k], mode, m.network) {
          if after.value.original.IsValid() {
            RecordedOriginalStays(w, actions, k + 1, after.value, mode);
          } else {
            OriginalIsFirst(w, actions, k + 1, after.value, mode);
          }
        }
      }
    }
  }
}
