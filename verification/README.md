# A verified model of the sing-box core

This project models, in Dafny, the parts of sing-box whose logic is hardest to see through, and proves what
they keep over whole runs:

- **DependencyStart** – the dependency-ordered start of outbounds and DNS servers, with its diagnosis of
  cycles and missing components.
- **ComponentIndex**, **OutboundManager**, **DnsTransports** – the managers' list, tag table, reverse
  dependency index and default component, before the start.
- **DialRace** – racing dials over interfaces and address families, in every interleaving.
- **ConnectionStream** – the daemon's connection event stream against the client that replays it.
- **GeositeFormat**, **Geosite** – the geosite file: byte formats, writer, and seeking buffered reader.
- **DnsRules**, **DnsModeGuard**, **DnsModeRuns** – the analysis that chooses between the legacy and the new DNS
  rule interpreter, the validators beside it, the guard on rule-set updates, and that guard in every
  interleaving of updates with each other and with the start.
- **DnsExchange**, **DnsLegacy**, **DnsLookup** – the two interpreters, and what the analysis guarantees them.
- **DnsCache**, **SingleFlight** – the DNS client's TTL choice, ageing cache, and per-question lock.
- **RouteMatch** – the route rule walk in pre-match and in full mode.
- **ServiceLifecycle** – reload, close and set-error of the daemon service around a mutex that is dropped midway.
- **Version** – version names: two printers, one parser, the comparisons.
- **Wrappers** – the option and result types shared by the others.

Stateful code is a class or a loop whose contract ties it to a function of the old state; the theorems are
lemmas about these functions. Goroutines are transition systems over their atomic steps, and a theorem about
"every interleaving" ranges over all step sequences.

## Where the code does not do what one would expect

Each of these is stated with the exact condition under which it happens, and with an input that makes it happen.

- An outbound that lists a dependency twice can, when removed, erase another outbound's entry in the reverse
  index, after which the shared dependency may be removed although it is in use (`UnlinkExactIff`;
  `DuplicateDependencyForgets` builds such a run from the empty manager).
- With no outbounds configured, the built-in outbound is added under its fixed tag even if an endpoint has that
  tag; the endpoint is then never started, and the start dereferences nil exactly when everything else is well
  configured (`RunThenStart`, `ShadowedStartIff`, `ClashingEndpointCrashes`).
- The test on the next default DNS server is the opposite of its error message. Removing the default makes a
  fakeip server the default if one comes next (`RemovalBreaksDefaultIff`, `RemovalMakesFakeIPDefault`), and
  otherwise, while servers are left, keeps a default that is no longer listed (`RemovalUnlistsDefaultIff`,
  `RemovalLeavesDefaultUnlisted`).
- An endpoint is reported as a missing dependency although it is listed, exactly when the diagnosis walks into
  it before it comes back to a tag it has seen (`EndpointReportedMissingIff`, `EndpointCycleReportedMissing`).
- Rule-set updates are validated and committed in separate steps, and so is the mode of a starting router
  resolved and published. Updates that overlap can therefore leave a router that runs in the new mode with rules
  that need legacy mode; whether they can depends on the rules alone (`NewModeFitsIff`;
  `ConcurrentNewModeUnsafe` gives a pair). A running legacy router stands any updates begun while it runs, but
  not one with query types that was accepted before the start and is committed after it (`LegacyFitsIff`,
  `UpdateAcrossStartBreaksLegacy`). `StartFitsIff` says which rules are safe from before the start on.
- A connection that closes between the two reads of the initial state is shown closed but kept as open by the
  server (`InitialExactIffDisjoint`, `ReadTwiceIsHidden`), until the first tick (`SessionRecovers`).
- A reload overwrites an instance without closing it when another one was built while it closed the old one;
  an error reported in the meantime lets that happen (`NothingLostIff`, `ErrorWhileStoppingLosesInstance`).
- A start that was overtaken by another reload can still publish STARTED, for an instance that is closed by then;
  the service is then STARTED whatever becomes of the instance it has (`StartedIsTruthfulIff`,
  `OvertakenReloadReportsStarted`).
- A DNS query that has to resolve its own server's name, and asks the question it holds the lock for, waits for
  itself until it is cancelled (`WaiterNeedsCancellationIff`, `NestedQuestionNeedsCancellation`).
- `LessThan` holds both ways between versions that `GreaterThan` cannot tell apart (`ComparisonRightIff`); a
  kernel release such as 6.14.0-27-generic is therefore taken to be older than 6.14 (`SuffixedReleaseTies`,
  `KernelReleaseTies`).

## Model

| member | source | states |
|---|---|---|
| DependencyStart.StartAll | adapter/outbound/manager.go:99-171 | the loop terminates; it succeeds iff tags are distinct, every dependency is listed, the graph is acyclic and no Start fails; every Start call happens once and after those of its dependencies, and what starts before a component without dependencies is listed before it; the first failing Start ends it; it dereferences nil iff a tag is repeated and everything was started by tags; otherwise the report is true and begins at the first component left |
| DependencyStart.StartPass | adapter/outbound/manager.go:103-142 | one pass keeps the start order legal; a pass that starts nothing leaves only components that wait |
| DependencyStart.Diagnose | adapter/outbound/manager.go:149-168 | a stuck loop means a cycle or an unlisted dependency, and the report, which begins at the first component not started, says which truthfully |
| DependencyStart.Lint | dns/transport_manager.go:127-143 | the walk terminates, never on a path longer than the number of tags |
| DependencyStart.FirstUnstartedIsFirst | adapter/outbound/manager.go:154-156 | the diagnosis follows the first dependency in the list that is not started |
| DependencyStart.LintIsTruthful | dns/transport_manager.go:128-142 | "circular" exhibits a cycle of unstarted components, "not found" names a dependency absent from the table |
| DependencyStart.StuckIsCyclicOrOpen | dns/transport_manager.go:118-143 | if nothing more can start, the graph has a cycle or an unlisted dependency |
| DependencyStart.OrderIsAcyclic | dns/transport_manager.go:95-120 | a complete start order in which dependencies come first excludes cycles |
| DependencyStart.EndpointReportedMissingIff | adapter/outbound/manager.go:146-168 | with outbounds and endpoints in the list and outbounds in the table: a listed tag is reported missing iff it is an endpoint's, iff the walk over first unstarted dependencies meets an endpoint before it repeats; a complete list is then reported incomplete |
| DependencyStart.EndpointCycleReportedMissing | adapter/outbound/manager.go:160-165 | any outbound and endpoint that depend on each other are such a cycle |
| DependencyStart.NoEndpointNeededNoneMissing | adapter/outbound/manager.go:160-165 | while nothing depends on an endpoint, a tag reported missing is not listed |
| DependencyStart.ShadowedStartIff | adapter/outbound/manager.go:104-151 | a first component without dependencies keeps a later one of its tag from being started, whatever that one depends on; the loop dereferences nil iff the list without it is complete, acyclic and well-behaved |
| ComponentIndex.AddDependents | adapter/outbound/manager.go:306-309 | the loop is the linking function |
| ComponentIndex.DropDependents | adapter/outbound/manager.go:251-260 | the loop is the unlinking function |
| ComponentIndex.LinkKeepsExact | adapter/outbound/manager.go:304-309 | a creation keeps the reverse index equal to the dependents in list order |
| ComponentIndex.UnlinkExactIff | adapter/outbound/manager.go:251-260 | a removal keeps the reverse index right, as lists and as sets, iff no dependency it lists twice has exactly one other entry |
| ComponentIndex.DuplicateFreeIsSafe | adapter/outbound/manager.go:251-260 | components without duplicated dependencies are always removed safely |
| ComponentIndex.ConsistentRemove | adapter/outbound/manager.go:230-237 | list and table hold the same components after a removal, which takes away only that one |
| OutboundManager.Manager.Create | adapter/outbound/manager.go:267-317 | the whole new state of list, table, index and default |
| OutboundManager.Manager.Remove | adapter/outbound/manager.go:223-265 | the whole new state, also of a refused removal |
| OutboundManager.Manager.PrepareStart | adapter/outbound/manager.go:60-78 | the endpoint or built-in outbound that stands in for a missing default |
| OutboundManager.RunKeepsInv | adapter/outbound/manager.go:223-317 | over any clean run list and table agree, the index names exactly the live dependents, and the default is the configured outbound while there is one, or with no default tag the first of the list |
| OutboundManager.AnyRunIsListed | adapter/outbound/manager.go:223-317 | over any run at all, with live tags created again and removals refused half-way, list and table agree, and no operation misses in the list what it found in the table |
| OutboundManager.RemoveSucceedsIff | adapter/outbound/manager.go:247-250 | a removal succeeds iff the tag is live and no live outbound depends on it; a refusal names exactly the live dependents |
| OutboundManager.RemoveKeepsPresent | adapter/outbound/manager.go:247-264 | a successful removal leaves every dependency present |
| OutboundManager.UnsafeRemovalForgets | adapter/outbound/manager.go:252-260 | after an unsafe removal a dependency in use can be removed |
| OutboundManager.DuplicateDependencyForgets | protocol/group/selector.go:49 | three creations, one with a dependency listed twice, and one removal lead there from the empty manager |
| OutboundManager.PreparedIsConsistent | adapter/outbound/manager.go:60-78 | the built-in outbound is added only to an empty list, so its tag cannot clash with an outbound's; success means a default; each of the two failures happens exactly when nothing of its kind can stand in |
| OutboundManager.StartIsWellPrepared | adapter/outbound/manager.go:60-81 | the list handed to the start loop, prepared outbounds and endpoints, has distinct tags iff the built-in outbound does not clash with an endpoint, holds what the table holds, and is closed iff every dependency names an outbound or an endpoint |
| OutboundManager.Manager.Start | adapter/outbound/manager.go:53-81 | preparation and start loop together, from the manager's state |
| OutboundManager.RunThenStart | adapter/outbound/manager.go:53-171 | after any creations and removals the start succeeds iff a default is found, the built-in outbound does not clash, every dependency is named, the graph is acyclic and no Start fails; everything is then started in dependency order; under a clash with a built-in outbound without dependencies it dereferences nil iff the list without the namesake is well configured, and nothing but a clash does that |
| OutboundManager.ClashingEndpointCrashes | adapter/outbound/manager.go:69-81 | no outbounds and one endpoint under the built-in tag, whatever it depends on, crash the start |
| DnsTransports.TransportManager.Create | dns/transport_manager.go:245-300 | the whole new state, also where the server is refused as default or as second fakeip |
| DnsTransports.TransportManager.Remove | dns/transport_manager.go:197-243 | the whole new state, with the inverted test on the next default |
| DnsTransports.TransportManager.PrepareStart | dns/transport_manager.go:60-73 | the built-in server that stands in for a missing default |
| DnsTransports.CreationOutcome | dns/transport_manager.go:284-299 | a fakeip server is refused as the default and as a second one, nothing else with a tag is; the default and the fakeip server each creation leaves |
| DnsTransports.CreationLists | dns/transport_manager.go:263-283 | a server is listed last and under its tag even if it is refused, and the list never misses one of the table |
| DnsTransports.CreationsChoose | dns/transport_manager.go:245-300 | after any creations the default is the first server that is not fakeip or, with a configured tag, the last such server of that tag; the fakeip server is the first one not meant to be the default |
| DnsTransports.StartFindsDefaultIff | dns/transport_manager.go:60-73 | after any creations the start finds no default iff no created server qualifies and, without a configured tag, the built-in one cannot be made |
| DnsTransports.CreationsKeepDefaultUsable | dns/transport_manager.go:284-292 | no sequence of creations makes a fakeip server the default |
| DnsTransports.RemovalBreaksDefaultIff | dns/transport_manager.go:213-224 | a removal makes a fakeip server the default iff the default goes and a fakeip server comes next |
| DnsTransports.RemovalMakesFakeIPDefault | dns/transport_manager.go:213-224 | two creations and a removal lead there from the empty manager |
| DnsTransports.RemovalUnlistsDefaultIff | dns/transport_manager.go:213-224 | a removal leaves a default that is no longer listed, and is refused half-way, iff the default goes and a server that is not fakeip comes next |
| DnsTransports.RemovalLeavesDefaultUnlisted | dns/transport_manager.go:213-224 | two creations of ordinary servers and a removal lead there |
| DialRace.StepKeepsInv | common/dialer/default_parallel_interface.go:33-88 | every step keeps errors, timer, racers and main loop in agreement |
| DialRace.RunKeepsListed | common/dialer/default_parallel_interface.go:79-82 | the received errors are at any moment those of the racers that sent one, each once, in order of arrival |
| DialRace.RaceIsClean | common/dialer/default_parallel_interface.go:16-151 | in every interleaving: at most 4n+2 steps, one launch of the fallback, errors returned only after every dial failed, listing each racer once; at rest the call has returned and each opened connection is the returned one or closed |
| DialRace.FallbackLaunchedAtMostOnce | common/dialer/default_parallel_interface.go:57-87 | the one-shot timer launches the fallback at most once, however it is stopped and reset |
| DialRace.QuiescentMeansDone | common/dialer/default_parallel_interface.go:38-51 | no deadlock, and every launched racer is finished |
| DialRace.ErrorMeansAllFailed | common/dialer/default_parallel_interface.go:79-82 | an error return means that every primary and every fallback dial failed |
| DialRace.SimulatesRun | common/dialer/default_parallel_network.go:100-130 | the two-family race, with its done flags, refines the interface race with one racer a side |
| DialRace.NetworkRaceIsClean | common/dialer/default_parallel_network.go:47-130 | the same guarantees for the two-family race; the preferred error is returned only when both failed |
| DialRace.DialSerial | common/dialer/default_parallel_network.go:26-44 | addresses are dialed in order up to the first success, all of them before an error |
| ConnectionStream.Feed.BuildInitialState | daemon/started_service.go:821-847 | snapshots and events of the first batch |
| ConnectionStream.Feed.ApplyConnectionEvent | daemon/started_service.go:849-887 | snapshots and event for one queued tracker event |
| ConnectionStream.Feed.BuildTrafficUpdates | daemon/started_service.go:889-985 | snapshots and events of a tick, in any map iteration order |
| ConnectionStream.SessionReplays | daemon/started_service.go:753-813 | begun with no connection in both reads, over any mix of drained events and ticks: the client's open table equals the snapshots, after each tick equals the active connections' counters, and every UPDATE names an open connection |
| ConnectionStream.SessionRecovers | daemon/started_service.go:753-813 | begun with any reads, as long as what was read both as active and as closed does not become active again: every UPDATE names an open connection, and client and snapshots agree from the first tick on |
| ConnectionStream.SessionShowsRates | daemon/started_service.go:894-953 | after every tick of such a session the row of each active connection shows its counters as totals, and as rates what they gained over the totals shown before, or none if it is new |
| ConnectionStream.SessionSendsIffChanged | daemon/started_service.go:894-953 | a tick sends something about an active connection iff the client's row of it has to change |
| ConnectionStream.TickShowsRates | daemon/started_service.go:894-953 | the rates after one tick, also for a counter that fell; a snapshot has its traffic flag iff the client shows rates |
| ConnectionStream.ClosedRowsExpire | experimental/libbox/command_types.go:164-173 | after every step no closed row is older than five minutes; a row that no event names is dropped then and not before |
| ConnectionStream.TickExactIffMonotone | daemon/started_service.go:894-953 | after a tick the open set is the active connections; the branch for a counter that fell, which no tracker takes, would leave the totals wrong, and nothing else does |
| ConnectionStream.EventReplays | daemon/started_service.go:849-887 | replaying one queued event keeps client and snapshots equal |
| ConnectionStream.InitialExactIffDisjoint | daemon/started_service.go:821-847 | the first batch agrees iff no connection was read both as active and as closed |
| ConnectionStream.ReadTwiceIsHidden | daemon/started_service.go:821-847 | one connection in both reads is shown closed while the server takes it for announced |
| ConnectionStream.LeftShowsFinal | daemon/started_service.go:864-883 | a closed connection shows the event's closing time, else the tracked one, else the current, and its final totals, or those shown so far if the event carries no connection |
| ConnectionStream.InitialShowsClosed | daemon/started_service.go:836-844 | the first batch shows a closed connection with the totals and time of its last record |
| ConnectionStream.LastClosedIsLast | daemon/started_service.go:960-965 | the record that counts for a connection found closed is its last one |
| ConnectionStream.TickShowsFinal | daemon/started_service.go:889-985 | after a whole tick a connection it found closed shows its latest closed record, or its last totals |
| ConnectionStream.EvictKeepsOpen | experimental/libbox/command_types.go:164-173 | eviction of old rows never drops an open connection |
| GeositeFormat.UvarintRoundTrip | common/geosite/reader.go:67-70 | every 64-bit number takes at most ten bytes and reads back |
| GeositeFormat.PutUvarintMeaning | common/geosite/writer.go:66-70 | a number is written in base 128, low digits first, every byte but the last with the high bit set |
| GeositeFormat.GetUvarintMeaning | common/geosite/reader.go:67-70 | for any bytes: the value of those up to the first without the high bit; end of file if there is none; overflow beyond ten bytes or 64 bits |
| GeositeFormat.FileLayout | common/geosite/writer.go:34-62 | the bytes of a file with two codes |
| GeositeFormat.VersionRefusedIff | common/geosite/reader.go:60-66 | a file is refused for its version iff its first byte is not 0 |
| GeositeFormat.HeaderCutIsEof | common/geosite/reader.go:57-101 | wherever a written file is cut inside its table, opening it reports the end of the file |
| GeositeFormat.ItemsRoundTrip | common/geosite/reader.go:113-124 | a code's items read back from where they were written |
| GeositeFormat.MetadataRoundTrip | common/geosite/reader.go:57-101 | the table lists exactly the codes, with their content offsets and counts, and ends where the content starts |
| GeositeFormat.FileRoundTrip | common/geosite/writer.go:10-64 | for every map, the reader lists exactly its keys and each code reads back as its own items |
| Geosite.Write | common/geosite/writer.go:10-64 | header, entries and content in sorted code order |
| Geosite.SortedKeys | common/geosite/writer.go:11-15 | the codes in strictly increasing byte order, each once |
| Geosite.SortedIsUnique | common/geosite/writer.go:15 | the output depends on the map alone |
| Geosite.Reader.ReadMetadata | common/geosite/reader.go:57-101 | the metadata of the file, whatever the sizes of the underlying reads |
| Geosite.Reader.ReadUvarint | common/geosite/reader.go:85-92 | the loop computes the decoder's value and position, or its error |
| Geosite.Reader.ReadText | common/geosite/reader.go:145-158 | the string behind its length, or the error |
| Geosite.Reader.Read | common/geosite/reader.go:103-126 | the answer depends on file and code only, not on earlier reads |
| Geosite.WriteThenRead | common/geosite/reader.go:36-49 | write a map, open it, read any codes in any order and any number of times: each answer is the map's |
| DnsRules.AllFlagsExact | dns/router.go:888-947 | the folded flags are exactly the disjunctions over all nodes at all depths, and fail iff a rule set is missing |
| DnsRules.NonLegacyHasNoStrategy | dns/router.go:874-886 | when the new mode is chosen no node at any depth carries a strategy |
| DnsRules.LegacyHasNoResponseRules | dns/router.go:853-860 | when legacy mode is chosen no node evaluates, responds, looks at a response, at the IP version or at query types, itself or through a rule set |
| DnsRules.ModeMeaning | dns/router.go:874-886 | an error iff a rule set is missing or a strategy meets a rule that rules legacy mode out; otherwise legacy iff a node needs it and none rules it out, by the fields of the nodes |
| DnsRules.NewModeHasNoAddressFilters | dns/router.go:989-1063 | rules accepted for the new mode filter on addresses only where they match a response, and that only behind an evaluate |
| DnsRules.NoNestedActionsIff | route/rule/rule_nested_action.go:35-49 | accepted iff no rule below the top carries an action |
| DnsRules.ConstructibleIff | route/rule/rule_dns.go:18-68 | a rule can be built iff its action can, every node in it can, by its fields and the mode, and no nested one has an action |
| DnsRules.ValidateTreesExact | dns/router.go:1027-1063 | a tree is accepted iff every node is, and needs a response iff some node does |
| DnsRules.ValidateForNewMode | dns/router.go:989-1004 | accepted iff all nodes are valid and response matching only follows a top-level evaluate |
| DnsRules.CheckEvaluateFakeIP | dns/router.go:1006-1025 | accepted iff no top-level evaluate names a fakeip server |
| DnsRules.BuildRules | dns/router.go:144-186 | a mode is returned iff the configuration is accepted in that mode |
| DnsModeGuard.ValidateUpdate | dns/router.go:194-241 | no error iff the update is acceptable in the router's phase |
| DnsModeGuard.GuardStandsAside | dns/router.go:194-212 | without rules or once closing every update passes; with rules and no router none does |
| DnsModeGuard.AllFlagsCommit | dns/router.go:949-960 | validating with an override is analysing the committed table |
| DnsModeGuard.GuardIsExact | dns/router.go:223-240 | the guard lets through exactly the updates that keep the running mode sound |
| DnsModeGuard.UpdatesKeepSound | dns/router.go:194-241 | after any accepted updates, each committed before the next is validated, a legacy router has no disabling rule and a new-mode router resolves to the new mode again |
| DnsModeGuard.PrestartUpdateResolves | dns/router.go:213-222 | before the start, accepted iff a start that comes after the commit will resolve the rules |
| DnsModeGuard.ConcurrentLegacySafe | route/rule/rule_set_local.go:131-154 | a running legacy router survives updates validated against one table and committed together |
| DnsModeGuard.ConcurrentStaticSafe | route/rule/rule_set_remote.go:192-201 | a new-mode router with a rule that disables legacy mode by itself survives any updates |
| DnsModeGuard.NewModeBatchesSafeIff | dns/router.go:194-241 | for updates validated against one table and committed together: every such batch leaves a new-mode router sound iff a rule disables legacy mode by itself, no rule looks a rule set up for addresses, no looked-up rule set has query types, or exactly one has, and it alone is looked up for addresses or another such rule set has addresses already |
| DnsModeGuard.StaysNewIff | dns/router.go:874-947 | the new mode survives a change of the table iff a rule or a looked-up rule set with query types keeps it, or no rule set looked up for addresses has any |
| DnsModeGuard.ConcurrentNewModeUnsafe | route/rule/rule_set_remote.go:192-201 | two rule sets, each update accepted alone, together ask for legacy mode |
| DnsModeRuns.NewModeFitsIff | route/rule/rule_set_remote.go:192-201 | in every interleaving of updates begun while a router runs in the new mode its metadata fit that mode iff a rule disables legacy mode by itself, no rule looks a rule set up for addresses, or at most one rule set is looked up at all |
| DnsModeRuns.TwoLookedUpBreak | route/rule/rule_set_local.go:140-149 | otherwise accepted updates lead from any metadata to an overlap that breaks it |
| DnsModeRuns.RunsSafeMeansBatchesSafe | dns/router.go:194-241 | the condition for runs implies the one for a single batch |
| DnsModeRuns.LegacyFitsIff | dns/router.go:213-236 | from any moment of a running legacy router, with any updates on their way: in every interleaving its metadata never disable legacy mode iff no update that brings query types to a looked-up rule set was accepted, or can still be accepted, as one from before the start |
| DnsModeRuns.LegacyUpdatesFit | dns/router.go:227-236 | no updates begun while it runs break it, however they overlap |
| DnsModeRuns.StartFitsIff | dns/router.go:95-127 | in every interleaving of updates with the start, in either mode, the metadata fit the published mode iff a rule disables legacy mode by itself, no rule looks a rule set up for addresses, the rules cannot run in the new mode or carry a strategy, or they cannot be built |
| DnsModeRuns.UpdateAcrossStartBreaksLegacy | dns/router.go:105-118 | one rule, one rule set with addresses and one update with query types around the start |
| DnsExchange.ExchangeWithRules | dns/router.go:369-478 | outcome, client queries and visited rules are those of the walk |
| DnsExchange.WalkExplained | dns/router.go:369-478 | at each rule the options are the caller's overlaid by exactly the earlier matched route-options rules, the response is the latest matched evaluate's; queries and outcome follow from the visited rules |
| DnsExchange.OutcomeMeaning | dns/router.go:377-477 | the first matched visited rule that settles the query, by the kind of its action, is the last one visited and gives the outcome; if there is none, all were visited and the default server is asked with the overlaid options |
| DnsExchange.EndsWithMeaning | dns/router.go:411-465 | a matched rule ends the walk iff it responds, rejects with the default or drop method, answers, or routes to a server that exists and may be used; and with what |
| DnsExchange.EvaluatedMeaning | dns/router.go:388-410 | an evaluate leaves its server's answer, and nothing if there is no such server or no answer |
| DnsExchange.RuntimeMeaning | route/rule/rule_action.go:121-170 | the action the walk takes for each configured one |
| DnsExchange.OwnQueryMeaning | dns/router.go:336-350 | a rule makes a query iff it matched, routes or evaluates, its server is known and may be asked; the query's options field by field |
| DnsExchange.RespondFollowsEvaluate | dns/router.go:989-1004 | accepted rules respond only behind an evaluate rule |
| DnsExchange.OverlayFields | dns/router.go:313-326 | overlays only ever disable the cache, never touch the strategy, and keep what none of them sets |
| DnsExchange.LastOverlayWins | dns/router.go:313-326 | the last overlay that sets a TTL or a subnet wins |
| DnsExchange.AcceptedRulesNeedNoStrategy | dns/router.go:313-326 | on accepted rules the walk that ignores strategies equals the one that honours them |
| DnsExchange.LookupAvoidsFakeIP | dns/router.go:552-574 | a walk that disallows fakeip queries no fakeip server |
| DnsLegacy.MatchDns | dns/router.go:243-311 | the first considered rule that settles the query, with the options of the considered route-options rules since the starting rule |
| DnsLegacy.SelectionMeaning | dns/router.go:254-310 | the selected rule is the first that applies and rejects, answers, or routes to a server that exists and may be used; its server; its options field by field |
| DnsLegacy.GatheredFields | dns/router.go:287-300 | any route-options rule on the way disables the cache; a strategy is the caller's or one of theirs |
| DnsLegacy.LastGatheredWins | dns/router.go:287-300 | the last of them to set a strategy, a TTL or a subnet wins |
| DnsLegacy.Resolve | dns/router.go:625-679 | rule numbers strictly increase over retries, at most one query per rule and one more; the answer is the last query's, or what the first deciding rule behind it rejects or answers with |
| DnsLegacy.AttemptsMeaning | dns/router.go:656-679 | only rules with an address filter are given up, each for a rejected response or, in a lookup, for no address |
| DnsLegacy.LegacyAvoidsFakeIP | dns/router.go:746-788 | no query of a legacy lookup goes to a fakeip server |
| DnsLegacy.AcceptedNeverEvaluates | dns/router.go:265-306 | the actions that the legacy walk ignores do not occur in rules accepted for it |
| DnsLegacy.AcceptedNeverReply | dns/router.go:634-655 | accepted rules never reach the client without a server |
| DnsLookup.NewModeLookup | dns/router.go:518-574 | created servers or the built-in one, accepted rules, new mode: a lookup queries no fakeip server |
| DnsLookup.LegacyModeLookup | dns/router.go:700-795 | the same in legacy mode |
| DnsCache.ChooseTTL | dns/client.go:272-289 | the rewrite, else a nonzero negative TTL for empty answers, else the least positive record TTL |
| DnsCache.NegativeTTLIsFirstSOA | dns/client.go:96-108 | neither more than the TTL nor than the last field of the first SOA record, and one of the two |
| DnsCache.ScanSection | dns/client.go:279-285 | the loop keeps the least positive TTL |
| DnsCache.Client.Keep | dns/client.go:272-297 | every record is stamped with the chosen TTL; a TTL of 0 is never cached |
| DnsCache.Client.Load | dns/client.go:438-510 | expired entries are dropped, live ones aged |
| DnsCache.AgedShowsRemainingIff | dns/client.go:489-500 | the 32-bit subtraction shows the seconds left on every record iff all carry the same TTL |
| DnsCache.LoadShowsRemaining | dns/client.go:373-510 | after any history a load gives the latest kept response with every TTL equal to the whole seconds left |
| DnsCache.LatestKeptIsCached | dns/client.go:295-297 | the latest response with a TTL is in the cache unless it was lost since |
| SingleFlight.ProtocolIsSound | dns/client.go:139-173 | in every interleaving of any exchanges, nested in any way: an entry exists iff one unfinished owner registered it, channels are closed once and by their owner, waiters are served, whoever is under way was begun by one still querying, there are at most three steps an exchange, and at rest nothing is under way or left behind |
| SingleFlight.OneOwner | dns/client.go:143-155 | at most one owner for each question |
| SingleFlight.QueriesIffEnters | dns/client.go:139-173 | an exchange ever queries iff it did without the cache, found no entry, or found its channel closed |
| SingleFlight.CancelledNeverQueries | dns/client.go:145-149 | a waiter that is cancelled never queries |
| SingleFlight.WaiterNeedsCancellationIff | dns/client.go:143-150 | a waiter can go on without being cancelled itself iff the owner of its channel did not begin it, directly or through further exchanges |
| SingleFlight.NestedQuestionNeedsCancellation | common/dialer/resolve.go:94-112 | a query that begins an exchange of its own question gets there in two steps |
| SingleFlight.FinishesIffNotDeadlocked | dns/client.go:139-192 | an exchange under way can end without any cancellation iff it is in no group of exchanges each of which waits, for a channel or for an exchange it began, on another of the group |
| SingleFlight.QuiescentMeansDone | dns/client.go:151-155 | with cancellation nobody is stuck: at rest every exchange has returned or was never begun, and no entry is left behind |
| RouteMatch.MatchRule | route/route.go:486-609 | the loop is the walk |
| RouteMatch.WalkIff | route/route.go:486-609 | the outcome is the one that the metadata each visited rule found explain: the first matched rule that routes, rejects, hijacks DNS, bypasses with an outbound or supported, or in pre-match off ICMP sniffs; no rule if all were passed; a fatal error at the first failed lookup or read |
| RouteMatch.OptionsAreLatest | route/route.go:537-564 | wherever the walk stands, every network, UDP and TLS option is what the matched rules last set it to |
| RouteMatch.LatestIsLast | route/route.go:537-564 | last means that no later options set it; what none sets is unchanged |
| RouteMatch.AddressesAreLatest | route/route.go:522-529 | the addresses are those of the last resolved domain, or none since a new host |
| RouteMatch.UnsetStays | route/route.go:517-589 | destination and addresses change only at matched rules that set them |
| RouteMatch.PreMatchAgrees | route/route.go:486-609 | pre-match and full match select the same rule with the same metadata, except where pre-match defers; no match and fatal errors agree; for ICMP because there is nothing to sniff |
| RouteMatch.PreMatchRejectIsFinal | route/route.go:292-311 | a rejection in pre-match is the one full matching comes to, whatever the bypass flag |
| RouteMatch.OriginalIsFirst | route/route.go:517-536 | whatever sniffing makes of the destination in between, the recorded original destination is the one the first override found, and without an override none is recorded |
| RouteMatch.RecordedOriginalStays | route/route.go:517-536 | a recorded original is never replaced |
| RouteMatch.OriginalIsInitial | route/route.go:517-536 | if sniffing leaves the destination alone, a recorded original is the initial destination, and an unrecorded one means it was never changed |
| ServiceLifecycle.StartedService.StartOrReload | daemon/started_service.go:177-204 | the critical section's effect, with the mutex released on every path |
| ServiceLifecycle.StartedService.ResumeReload | daemon/started_service.go:190-204 | the same after the old instance was closed |
| ServiceLifecycle.StartedService.FinishReload | daemon/started_service.go:205-218 | the same after the new instance was started |
| ServiceLifecycle.StartedService.CloseService | daemon/started_service.go:229-251 | the same for a close |
| ServiceLifecycle.StartedService.ReportError | daemon/started_service.go:253-257 | the same for a reported error |
| ServiceLifecycle.RunKeepsAgreement | daemon/started_service.go:123-257 | whenever the mutex is free STARTING and STARTED mean an instance, IDLE means none, the last published status is the current one, STARTED follows STARTING and IDLE follows STOPPING |
| ServiceLifecycle.StepNews | daemon/started_service.go:123-257 | what each turn of a call publishes, by what it does: a start its outcome, a build STARTING and a close STOPPING before theirs |
| ServiceLifecycle.StepPublishes | daemon/started_service.go:205-218 | STARTED is published iff a start succeeded while the service was STARTING, FATAL iff an error was reported or a build, start or close failed |
| ServiceLifecycle.StepReturns | daemon/started_service.go:177-251 | a call returns an error iff it was refused, which changes nothing, or failed |
| ServiceLifecycle.StepInstances | daemon/started_service.go:185-204 | only a successful build makes an instance, only a close takes the current one away, and what is closed |
| ServiceLifecycle.RunPublishes | daemon/started_service.go:123-257 | in every run the stream is what its turns published, in order |
| ServiceLifecycle.RunPublishesStartedIff | daemon/started_service.go:205-216 | a run publishes STARTED iff some start in it succeeded while the service was STARTING |
| ServiceLifecycle.StartedIsTruthfulIff | daemon/started_service.go:205-216 | in every interleaving, STARTED always means that the start of the current instance succeeded iff no overtaken reload reports the success of an instance that is no longer current |
| ServiceLifecycle.OvertakenReloadReportsStarted | daemon/started_service.go:205-216 | two reloads return success and leave the service STARTED with an instance whose start failed |
| ServiceLifecycle.RunIsBounded | daemon/started_service.go:177-257 | the turns that all calls together have taken and may still take never exceed those they began with, so every run ends |
| ServiceLifecycle.CallIsBounded | daemon/started_service.go:177-257 | no call takes more than four turns, and what it took and may still take never exceeds what it began with |
| ServiceLifecycle.ConsiderateRunsLoseNothing | daemon/started_service.go:177-257 | if no error is reported while the service is stopping, every instance built is current or closed, wherever the run stands |
| ServiceLifecycle.NothingLostIff | daemon/started_service.go:190-198 | once every call has returned, every instance built is current or closed iff no step put a new instance over one that was neither closed nor about to be |
| ServiceLifecycle.AllHeldIff | daemon/started_service.go:177-257 | the same at any point of a run: each instance is closed, current, or about to be closed iff no step overwrote one |
| ServiceLifecycle.ConsiderateRunsStayTidy | daemon/started_service.go:177-257 | in such runs no step overwrites, one reload replaces at a time, and STOPPING means a reload is under way |
| ServiceLifecycle.ErrorWhileStoppingLosesInstance | daemon/started_service.go:185-198 | three reloads and one reported error lose an instance |
| Version.Parse | common/badversion/version.go:114-152 | the assignments compute the parsing function |
| Version.StringRoundTripIff | common/badversion/version.go:88-94 | parsing inverts full printing exactly on nonnegative numbers, no commit, an identifier without separators, and no pre-release number without identifier |
| Version.BadStringRoundTripIff | common/badversion/version.go:96-108 | parsing inverts short printing exactly for no identifier, alpha and beta |
| Version.LeadingV | common/badversion/version.go:115-117 | a leading v changes nothing |
| Version.StylesConvert | common/badversion/version_test.go:11-12 | parsing either style, with the v, and printing the other gives the other name of the version |
| Version.ParsedIsClean | common/badversion/version.go:114-152 | no name parses to a negative number or an identifier with a separator |
| Version.GreaterThanIsStrictOrder | common/badversion/version.go:33-71 | irreflexive, asymmetric and transitive on all versions |
| Version.NewerIsGreater | common/badversion/version.go:33-82 | numbers decide first, then release over rc over beta over alpha, then the pre-release number |
| Version.RankMeaning | common/badversion/version.go:73-82 | how an identifier begins decides its rank |
| Version.ComparisonRightIff | common/badversion/version.go:21-71 | two versions are comparable, and LessThan is the converse of GreaterThan, iff they are not tied |
| Version.SuffixedReleaseTies | common/badversion/version.go:129-137 | any version with a suffix that is no pre-release ties with the bare version |
| Version.KernelReleaseTies | common/ktls/ktls_linux.go:58-66 | 6.14.0-27-generic does not count as 6.14 or later |
| Version.KnownVersionsNeverTie | common/badversion/version.go:49-82 | with the identifiers rc, beta, alpha or none the order is total |

## Left out

- Rule matching, sniffing and resolving themselves: they are functions of the world that the theorems quantify over.
- Interface selection for the dial race (`selectInterfaces`): filters only.
- Creations and removals after the start, which also start and close components; the managers' locks.
- `Close` of the managers and the later start stages: plain loops.
- RunKeepsInv: the reverse index is exact over creations under unused tags and removals that succeed safely; a refused removal has already dropped the outbound, and a creation on a live tag keeps the old index entries. List and table agree over any run (`AnyRunIsListed`).
- OPT records in cached DNS messages: the message is edited after it was stored, so the uniform TTL that `AgedShowsRemainingIff` needs can be lost.
- LoadShowsRemaining: time is in whole nanoseconds and the seconds left are an integer quotient; the rounding of the float64 conversion is not modelled, nor the eviction policy of the cache, which may lose any entry at any time.
- The rejected-domain cache and the EDNS client subnet of the DNS client.
- DnsModeRuns: `Close` of the DNS router, after which updates are no longer checked. An analysis may read for each rule set anything it has been so far, which covers reads at different moments; the runs that break a mode read the current metadata.
- SingleFlight: an exchange ends only after those it began; that a query may be abandoned while its dialing goroutine goes on is not modelled.
- ConnectionStream: each read of the traffic manager is atomic, and only ids, counters and closing times of connections are kept.
- Errors of the writer behind `Write`, and slices too large for memory in the geosite reader; a length that Go's `make` refuses is a panic outcome.
- DialRace: why a dial fails, including cancelled contexts, is open to the steps; the serial packet listeners repeat the serial dialing.
- The process, neighbour, fakeip and reverse-mapping lookups that route matching does before its rule loop.
- Option parsing, gRPC, logging and platform code.
