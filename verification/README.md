# external-dns-docker: a model of the reconciliation protocol

external-dns-docker keeps a DNS zone in step with the labels of Docker containers. One cycle reads the zone by a
transfer, compares it with the desired endpoints, plans creates, updates and deletes under an ownership rule, and sends
them as one RFC 2136 UPDATE per zone. Ownership is per *name*, held in a TXT record (the *marker*) at
`external-dns-docker-owner.<name>`; records are compared per *(name, type)*. Most of what is hard about the program
comes from that mismatch, from Go's unspecified map order and from updates that fail half way.

The centre of the project is one theorem, `Refinement.CycleIsNextZone`. `Cycle.NextZone` is a reference definition of a
cycle: a function on zones, record by record, with no lists, no iteration order and no message. The theorem says that
transfer, `Calculate`, the UPDATE message and the server's processing of it (section 3.4.2 of RFC 2136, with the CNAME
rule) compute exactly that function, for every order of the transfer and of the map walks. Everything about
runs is proved on top of it: what a cycle does to a name, the exact ownership law, convergence in two cycles, recovery from
faults, the multi-zone provider, several daemons on one zone.

| file | contents |
|---|---|
| `Text`, `Addresses`, `Endpoints` | text helpers, dotted quads, the endpoint value, `endpointsEqual` |
| `Dns`, `Phases` | a zone, an UPDATE message and its effect; runs of removals, insertions and replacements in closed form |
| `Provider` | the RFC 2136 provider: conversions, `Records`, `ApplyChanges` |
| `Plan` | `Calculate` and its helpers, for every walk order |
| `Cycle`, `Refinement` | the reference cycle, the named preconditions, the refinement theorem |
| `CycleLaws`, `Convergence`, `Locality`, `Necessity` | meaning of a cycle, invariants, two-cycle convergence, faults, why the preconditions are needed |
| `BlockedMarkers` | cycles and runs when the server refuses a marker because of a CNAME |
| `Safety` | what no run touches, in any zone, and exactly when |
| `Routing`, `MultiZone`, `MultiZoneLaws` | longest-suffix routing, split and dispatch, refinement of one big zone |
| `Daemons`, `Fleet` | several daemons, interleaved: safety, serialisability, joint convergence |
| `Scheduler`, `Reconcile` | the controller loop as a state machine, one pass as a class |
| `Instance`, `Counterexamples` | a goal and zones that meet all preconditions; inputs on which a documented promise fails |
| `FakeProvider` | the in-memory provider and where it departs from the zone |
| `ContainerLabels` | the label parser and what it guarantees to the plan |
| `EndToEnd` | from the labels of a container to the records of a zone, in literal texts |

## Preconditions, by name

The code does not establish all of these itself, so each is a predicate. `Instance.PreconditionsMet` shows that those on goal and zone
can be met together, before a first cycle and after it.

- On the desired set (`Cycle.GoodGoal`): `DesiredReadable` (single target, reads back equal once written, not an owner-prefixed
  TXT; `Provider.CanonicalIff` spells this out), `DesiredUnmixed` (a CNAME is alone at its name), `DesiredOffMarkers` (no desired
  CNAME at the marker name of a desired name). `Necessity.RestsIffReadable` shows that the three are not a convenience: for single targets
  and types without a bar they hold iff some zone, with TTLs the provider could have written and every desired name owned, has an empty plan.
- On the zone (`Cycle.GoodZone`): `WellFormed` (absolute names, CNAME exclusivity), `Singletons` (at managed names one record per type,
  one string per TXT), `MarkersSingle`, `CnameNamesVisible` (nothing of an unsupported type where a CNAME is desired),
  `MarkerNamesFree` (no CNAME at the marker name of a desired name). `CycleLaws.NextGood` proves that every cycle keeps all of them.
  `BlockedMarkers` does without the last one and says which names still settle.
- On several zones, for the refinement of one big zone only: `MultiZone.ZonesDistinct`, `MultiZoneLaws.Routed` (each zone holds only
  names routed to it), `Routing.NoMarkerZones`, `MultiZoneLaws.DesiredRouted` (every desired name is routed; needed to converge, by
  `MultiZoneLaws.SettlesIffRouted`), one MinTTL for all zones.
- On daemons: `Daemons.Separate` (distinct owner IDs, disjoint territories).

## Where code and documentation differ

- "For each managed record, a companion TXT record" (README.md:219-229, pkg/plan/plan.go:47-54) does not hold: dropping one of several types at a
  name deletes the marker they share (`Counterexamples.SurvivorLosesMarker`). `CycleLaws.OwnershipLaw` is the exact law.
- "Only records with a matching ownership TXT record are ever modified or deleted" fails in two ways. Over runs: creating another type at the
  same name adopts the name (`Counterexamples.UnownedRecordLost`); `Convergence.UnownedRecordFate` says exactly which records are lost that way.
  In one cycle: the record type of a label is not checked (pkg/source/docker.go:258-263), so with a desired type that contains a bar an index key can
  be that of another name, whose record is then removed (`Counterexamples.BarInTypeRemoves`). `Safety.SafeIffNoClash` gives the exact condition on well-formed zones,
  and `Safety.SafeRun` the names that are safe in every run.
- "cap shift to prevent overflow" (pkg/controller/controller.go:104): a large base still overflows. `Scheduler.BackoffPositiveIff` gives the exact bound,
  `Scheduler.BackoffOverflows` an instance.
- A hostname label with a final dot, and a target that is an IPv4 address in IPv6 notation, pass the parser but never settle
  (`Counterexamples.DottedHostnameNeverSettles`, `Counterexamples.MappedAddressNeverSettles`). `ContainerLabels.ParsedCanonicalIff` and
  `Necessity.RestsIffReadable` say exactly what settles.
- The in-memory provider deletes last, the RFC 2136 provider first; so the former loses the marker of a name at which one type replaces another
  (`Counterexamples.StoreLosesMarker`); `FakeProvider.StoreMarkers` says exactly where.

## Model

| member | source | states |
|---|---|---|
| `Refinement.CycleIsNextZone` | pkg/provider/rfc2136/rfc2136.go:164-227 | For every good goal and zone, every transfer order and every plan `Calculate` may return, running the UPDATE message on the zone gives exactly the reference zone `NextZone`; hence the result does not depend on map order. |
| `Cycle.NextZoneLookup` | pkg/plan/plan.go:55-102 | The reference zone holds a record exactly when the pointwise rule `After` says so, with that TTL. |
| `CycleLaws.OwnershipLaw` | pkg/plan/plan.go:68-99 | After a cycle a name is owned iff something was created at it, or it was owned and nothing at it was deleted. |
| `Counterexamples.SurvivorLosesMarker` | pkg/plan/plan.go:88-99 | An owned name with A and AAAA of which only the A is still desired: the A record stays, its marker goes. |
| `CycleLaws.OwnedNameBecomesDesired` | pkg/plan/plan.go:68-99 | At an owned name the supported records become exactly the desired ones, switches between CNAME and other types included. |
| `CycleLaws.UnownedNameIsKept` | pkg/plan/plan.go:68-99 | At an unowned name every record stays; what arrives is desired, in a slot that was empty and free under the CNAME rule, and every such one arrives. |
| `Safety.ForeignUntouched` | pkg/plan/plan.go:106-125 | In any well-formed zone and for any desired set without owner-prefixed TXTs, the message of every plan leaves records of unsupported types and other owners' markers as they are. |
| `CycleLaws.NextSingletons` | pkg/plan/plan.go:152-158 | At most one record per managed (name, type) is an invariant, so the last-wins index never hides a managed record. |
| `CycleLaws.NextGood` | pkg/provider/rfc2136/rfc2136.go:173-213 | Every cycle keeps all zone conditions. |
| `Convergence.PlanEmptyIffSettled` | pkg/plan/plan.go:55-102 | Every plan for a zone is empty iff every name is settled: no desired slot empty, and owned records read as desired. |
| `Convergence.TwoCyclesSettle` | pkg/plan/plan.go:68-99 | From any good zone two cycles settle every name. |
| `Convergence.OneCycleSettles` | pkg/plan/plan.go:68-73 | One cycle is enough unless a create lands on an unowned name that already has records. |
| `Convergence.SettledIsFixed` | pkg/plan/plan.go:55-102 | A settled zone is a fixed point of the cycle. |
| `Convergence.Convergence` | pkg/controller/controller.go:196-253 | In every run of passes that took effect, each a transfer in any order, a plan of `Calculate` and its message, the zone is the same from the second pass on, and every plan made for it is empty. |
| `Convergence.PlannedZone` | pkg/controller/controller.go:213-247 | A sound plan leads to the next zone for every outcome that took effect and is empty iff the zone is settled. |
| `Convergence.CodeCycleIsNext` | pkg/controller/controller.go:196-253 | One pass leaves a good zone as it is or takes it to the next zone, as its outcome says, and keeps it good. |
| `Convergence.PassExists` | pkg/controller/controller.go:196-253 | A pass exists for every zone, desired set and outcome. |
| `Convergence.FaultyRunConverges` | pkg/controller/controller.go:167-179 | A run of passes with any outcomes, an update that took effect before its error included, of which the last two took effect, ends in the zone two fault-free cycles reach from its start, and every plan made for it is empty. |
| `Convergence.UnownedRecordFate` | pkg/plan/plan.go:68-99 | A record at an unowned name is gone after two cycles iff something desired is created at its name and it is not itself desired. |
| `Counterexamples.UnownedRecordLost` | pkg/plan/plan.go:68-99 | A record without a marker is gone after two cycles because another type is desired at its name. |
| `Necessity.EmptyPlanIsReadable` | pkg/plan/plan.go:68-84 | Conversely: if nothing is planned at an owned desired name, its endpoint reads back equal and is not an owner-prefixed TXT. |
| `Necessity.EmptyPlanIsUnmixed` | pkg/plan/plan.go:68-84 | If nothing is planned, no desired name mixes a CNAME with another type. |
| `Necessity.UnseenNeverSettles` | pkg/plan/plan.go:139-148 | A desired name with a final dot, or an owner-prefixed TXT, gives a non-empty plan for every zone. |
| `Necessity.RestsIffReadable` | pkg/plan/plan.go:55-102 | For single targets and types without a bar: some well-formed zone whose TTLs the provider could have written, with every desired name owned, has an empty plan iff the endpoints read back equal, keep CNAMEs alone and keep them off the markers. |
| `BlockedMarkers.BlockedCycle` | pkg/plan/plan.go:72-73 | With foreign CNAMEs at marker names of desired names: one cycle, for every transfer and walk order, leaves those names as they are and does everywhere else what it does without them. |
| `BlockedMarkers.BlockedNameAfter` | pkg/plan/plan.go:72-73 | A desired name with a blocked marker stays blocked, and after a cycle is settled iff no missing desired record was kept out by what is at the name. |
| `BlockedMarkers.BlockedNameSettlesIff` | pkg/plan/plan.go:72-73 | In every run of passes with any outcomes: such a name is never owned, and from the first pass with effect on it is settled iff nothing was kept out at the start; otherwise it never settles. |
| `Instance.PreconditionsMet` | pkg/plan/plan.go:55-102 | There are a goal and zones, unowned and empty as well as owned with the desired record, that meet all preconditions. |
| `Locality.AfterIsLocal` | pkg/plan/plan.go:55-102 | What a cycle leaves at a name depends on that name and its marker name alone. |
| `Locality.NextMix` | pkg/plan/plan.go:55-102 | A cycle of a zone put together from two is put together from the two cycles. |
| `Locality.PartialCycleForgotten` | pkg/provider/rfc2136/multizone.go:136-145 | A cycle that took effect in part does not change where two full cycles lead. |
| `Locality.FaultsForgotten` | pkg/provider/rfc2136/multizone.go:136-145 | After any finite run of cycles that took effect at some names only, two full ones reach the zone a fault-free run reaches, and it is settled. |
| `Safety.StrangerUntouched` | pkg/plan/plan.go:86-99 | In any zone: a cycle changes nothing at a name that is neither claimed nor desired and whose records share no index key with a desired endpoint of an owned name, and does not claim it; only at marker names may markers of ours come and go. |
| `Safety.SafeRun` | pkg/controller/controller.go:131-192 | The same over whole runs, with desired sets that vary and cycles that are lost. |
| `Safety.SafeIffNoClash` | pkg/plan/plan.go:161-163 | A name that is not desired is safe in every well-formed zone that does not claim it iff no endpoint in the desired index, of a non-empty name without a final dot, is held under one of its index keys. |
| `Safety.NoBarNoClash` | pkg/plan/plan.go:161-163 | There is no such endpoint if the name has no bar, or no desired type has one. |
| `Counterexamples.BarInTypeRemoves` | pkg/source/docker.go:258-263 | With `a` owned and desired with a type made of b, a bar and A, the A record of the name made of a, a bar and b, neither claimed nor desired, is removed. |
| `Safety.ReplacedOrigin` | pkg/plan/plan.go:80-84 | A replaced endpoint is a record of the zone whose index key a desired endpoint of an owned name has; their names agree unless the record's name and the desired type both contain a bar. |
| `Endpoints.SortedArrangementUnique` | pkg/plan/plan.go:184-189 | A multiset of texts has one sorted arrangement. |
| `Endpoints.SortedCopyIsSorted` | pkg/plan/plan.go:184-189 | The sorted copy is sorted in Go's string order (that it is a permutation is the function's own contract). |
| `Endpoints.SortedCopiesDecide` | pkg/plan/plan.go:167-189 | Sorted copies are equal iff the targets are equal as multisets. |
| `Endpoints.SameTexts` | pkg/plan/plan.go:175-180 | The comparison loop decides equality. |
| `Endpoints.EndpointsEqual` | pkg/plan/plan.go:167-181 | The comparison holds iff the TTLs are equal and the targets are equal as multisets. |
| `Plan.BuildOwnedSet` | pkg/plan/plan.go:106-125 | The set holds a name iff some owner-prefixed TXT endpoint of that name carries our value. |
| `Plan.FilterOwnershipTXTs` | pkg/plan/plan.go:139-148 | The result is the input without ownership TXTs, in order. |
| `Plan.InWithoutOwnership` | pkg/plan/plan.go:139-148 | Exactly the non-marker endpoints remain. |
| `Plan.IndexEndpoints` | pkg/plan/plan.go:152-158 | The loop builds the last-wins index. |
| `Plan.InIndex` | pkg/plan/plan.go:152-158 | A key is indexed iff an endpoint has it, and holds one of those endpoints. |
| `Plan.LastOfKeyWins` | pkg/plan/plan.go:152-158 | Of several endpoints with one key the last is indexed. |
| `Plan.EpKeyInjective` | pkg/plan/plan.go:161-163 | Keys determine name and type when types contain no bar. |
| `Plan.WalkDesired` | pkg/plan/plan.go:68-86 | Whatever order the map walk takes, creates and update pairs are those of that order. |
| `Plan.WalkCurrent` | pkg/plan/plan.go:88-99 | The same for the deletes. |
| `Plan.Calculate` | pkg/plan/plan.go:55-102 | The result is a plan: the three lists for some pair of walks that visit every key once. |
| `Plan.PlanMeaning` | pkg/plan/plan.go:55-102 | Every plan creates, replaces and deletes exactly the specified endpoints: update pairs are exactly the owned keys whose records differ, each once. |
| `Plan.PlanLists` | pkg/plan/plan.go:68-99 | Every plan creates each missing key once and deletes each dropped key once, each followed by the marker of its name. |
| `Provider.ConvertEndpoint` | pkg/provider/rfc2136/rfc2136.go:251-293 | One record per target, in order: absolute name, the data the target stands for in its type, and the TTL, MinTTL in its place if that is greater, as 32 bits; an endpoint is refused iff one of its targets stands for nothing. |
| `Provider.MinTTLEnforced` | pkg/provider/rfc2136/rfc2136.go:287-293 | For TTL and MinTTL below 2^32, what is written is at least both and equals one of them. |
| `Provider.AppendAnswers` | pkg/provider/rfc2136/rfc2136.go:153-158 | One envelope's answers are appended in order, unsupported types skipped. |
| `Provider.Records` | pkg/provider/rfc2136/rfc2136.go:129-161 | Fails iff some envelope is an error (a cancelled context counts as one); otherwise holds an endpoint iff some answer of some envelope reads as it. |
| `Provider.TransferInOrder` | pkg/provider/rfc2136/rfc2136.go:143-160 | Envelopes and answers are read in order: a transfer reads as its first part followed by the rest, one more answer adds its endpoint at the end, if it has one. |
| `Provider.InReadAll` | pkg/provider/rfc2136/rfc2136.go:231-248 | An endpoint is read iff some supported record reads as it. |
| `Provider.ReadFields` | pkg/provider/rfc2136/rfc2136.go:231-248 | What a record of a supported type reads as, and no other: its name without the final dot, its type, 300 for TTL 0 and the TTL otherwise, the address in print, the CNAME target without its dot, every TXT string. |
| `Provider.DeleteSection` | pkg/provider/rfc2136/rfc2136.go:173-182 | The delete entries, endpoints that do not convert skipped. |
| `Provider.UpdateSection` | pkg/provider/rfc2136/rfc2136.go:184-203 | Removal of the old and insertion of the new records, pair by pair; a failed old conversion skips the pair, a failed new one does not. |
| `Provider.CreateSection` | pkg/provider/rfc2136/rfc2136.go:205-213 | The insert entries. |
| `Provider.BuildMessage` | pkg/provider/rfc2136/rfc2136.go:164-213 | Deletes, then updates, then creates, in one message. |
| `Provider.ApplyChanges` | pkg/provider/rfc2136/rfc2136.go:164-227 | An empty change set sends nothing and succeeds; otherwise the whole message takes effect or none of it, and an error may hide an effect. |
| `Provider.MessageSource` | pkg/provider/rfc2136/rfc2136.go:173-213 | Every removal comes from a deleted or old endpoint, every insertion from a created or new one. |
| `Provider.InMessage` | pkg/provider/rfc2136/rfc2136.go:173-213 | The entries exactly: removed is what a deleted or an old endpoint converts to, even where the new one does not convert; inserted is what a created endpoint converts to, or a new one whose old one converts. |
| `Provider.RecordRoundTrip` | pkg/provider/rfc2136/rfc2136.go:231-285 | A supported record with at most one string, read and written back, is one record of the same name, type and data. |
| `Provider.RewriteHitsIff` | pkg/provider/rfc2136/rfc2136.go:231-285 | A removal hits the record the transfer returned iff it is not a TXT with several or no strings. |
| `Provider.CanonicalIff` | pkg/provider/rfc2136/rfc2136.go:251-293 | Exactly which single-target endpoints read back equal: no final dot, TTL in 1..2^32-1 and not below MinTTL, target in canonical text. |
| `Provider.CanonicalWrites` | pkg/provider/rfc2136/rfc2136.go:251-285 | A canonical endpoint is written as one record of its name and type. |
| `Addresses.QuadRoundTrip` | pkg/provider/rfc2136/rfc2136.go:231-270 | Printing and parsing a dotted quad are inverse, both ways. |
| `Dns.RunKeepsWellFormed` | pkg/provider/rfc2136/rfc2136.go:173-226 | Every message of legal records keeps absolute names and CNAME exclusivity. |
| `Dns.StepLookup` | pkg/provider/rfc2136/rfc2136.go:173-226 | One entry, record by record, as section 3.4.2 of RFC 2136 has it: a removal takes the exact record; an insertion that conflicts with nothing at its name lands, in place of another CNAME if it is one. |
| `Dns.RunIsLocal` | pkg/provider/rfc2136/rfc2136.go:173-226 | A message reads and changes only the names it mentions. |
| `Phases.RunRemovals` | pkg/provider/rfc2136/rfc2136.go:173-182 | The closed form of a run of removals, in any order. |
| `Phases.RunReplacements` | pkg/provider/rfc2136/rfc2136.go:184-203 | The closed form of a run of remove and insert pairs. |
| `Phases.RunInsertions` | pkg/provider/rfc2136/rfc2136.go:205-213 | The closed form of a run of insertions under the CNAME rule, in any order. |
| `Routing.MatchesLabels` | pkg/provider/rfc2136/multizone.go:161-177 | The string test holds iff the zone's labels are a suffix of the name's labels. |
| `Routing.ZoneFor` | pkg/provider/rfc2136/multizone.go:161-177 | The answer covers the name and is the longest such zone, equal length meaning the same zone text; no answer means that at most the root covers it. |
| `Routing.MarkerRoutedWithRecord` | pkg/provider/rfc2136/multizone.go:108-145 | A marker is routed as its name iff no configured zone is the marker name itself. |
| `Routing.MarkerNameRouted` | pkg/plan/plan.go:30-32 | With no zone under the marker label, markers and markers of markers go with their names. |
| `Routing.RouteFqdn` | pkg/provider/rfc2136/multizone.go:161-177 | A final dot does not change the route. |
| `Routing.RouteIsFirst` | pkg/provider/rfc2136/multizone.go:161-177 | Of several entries for one zone the first is the answer. |
| `MultiZone.FanOut` | pkg/provider/rfc2136/multizone.go:72-98 | In whatever order the transfers finish, the result is the merge in zone order, or the error of the first zone that failed. |
| `MultiZone.SplitCreates` | pkg/provider/rfc2136/multizone.go:102-146 | The create lists of all zones after the loop. |
| `MultiZone.SplitDeletes` | pkg/provider/rfc2136/multizone.go:102-146 | The delete lists of all zones after the loop. |
| `MultiZone.SplitUpdates` | pkg/provider/rfc2136/multizone.go:102-146 | The update lists of all zones after the loop, each new endpoint with its old one. |
| `MultiZone.SplitChanges` | pkg/provider/rfc2136/multizone.go:102-135 | The `byZone` map holds for each entry the changes routed to its zone; repeated entries of a zone share them. |
| `MultiZone.ApplyAll` | pkg/provider/rfc2136/multizone.go:102-146 | The zones before the first error have their part, those after it are untouched, the failing one has it or not. |
| `MultiZoneLaws.SplitIsExact` | pkg/provider/rfc2136/multizone.go:102-135 | A zone's part is the routed endpoints at ascending positions, old and new from the same position as far as there are new ones: an order-preserving partition that keeps pairs. |
| `MultiZoneLaws.MessagePart` | pkg/provider/rfc2136/multizone.go:102-146 | The message of a zone's part is the whole message restricted to the zone's names. |
| `MultiZoneLaws.DispatchIsMix` | pkg/provider/rfc2136/multizone.go:136-145 | After split and dispatch with any outcomes, the merged contents are those of one big zone at the names of the zones reached and unchanged elsewhere. |
| `MultiZoneLaws.TransferMerged` | pkg/provider/rfc2136/multizone.go:72-98 | The transfers of all zones together are a transfer of the merged zone. |
| `MultiZoneLaws.FanOutReadsMerged` | pkg/provider/rfc2136/multizone.go:72-98 | What the fan-out returns is what that transfer reads as. |
| `MultiZoneLaws.MultiCycleIsPartial` | pkg/provider/rfc2136/multizone.go:102-146 | However a cycle of fan-out, plan, split and dispatch ends, the merged zone went through a partial cycle that separates no marker from its name. |
| `MultiZoneLaws.MultiCycleExists` | pkg/provider/rfc2136/multizone.go:72-146 | Such a cycle exists for all contents, desired sets and outcomes. |
| `MultiZoneLaws.SuccessfulMultiCycle` | pkg/provider/rfc2136/multizone.go:102-146 | With every desired name routed, a multi-zone cycle without an error is one cycle of the merged zone. |
| `MultiZoneLaws.MultiZoneFaultsForgotten` | pkg/provider/rfc2136/multizone.go:136-145 | After any multi-zone cycles that stopped anywhere, two that meet no error bring the merged zones where two fault-free cycles of one big zone lead from the start, and nothing is left to plan; every desired name is routed. |
| `MultiZoneLaws.SettlesIffRouted` | pkg/provider/rfc2136/multizone.go:108-113 | Some zones that hold only names routed to them are settled iff every desired name is routed. |
| `MultiZoneLaws.UnroutedNeverSettles` | pkg/provider/rfc2136/multizone.go:108-113 | Zones that hold only names routed to them are not settled while a desired name is routed nowhere. |
| `Daemons.ExecutionSafe` | pkg/controller/controller.go:208-240 | For desired sets within each daemon's names, readable or not: in every state of every interleaving of fetch, plan and apply, pending plans touch only their daemon's names, insert and remove only markers of its own value, snapshots equal the zone there, records at nobody's names never change. |
| `Daemons.NextStepExists` | pkg/controller/controller.go:208-240 | In every state each daemon can take its next step: fetch, plan for any allowed desired set, or apply. |
| `Daemons.GoodGoalAllowed` | pkg/plan/plan.go:55-102 | Sound goals are among the desired sets for which the interleaving is safe. |
| `Daemons.PlanTouchesOwn` | pkg/plan/plan.go:55-102 | Every entry of a daemon's message is at one of its names or their markers. |
| `Daemons.PlanWritesOwn` | pkg/plan/plan.go:128-136 | Every marker a daemon inserts or removes is its own, at one of its names. |
| `Daemons.ApplyIsAtomicCycle` | pkg/controller/controller.go:208-240 | Serialisability: an apply of a plan made earlier for a sound goal does to the zone what a whole cycle at that moment would do. |
| `Fleet.JointConvergence` | pkg/controller/controller.go:196-253 | Daemons with fixed goals, in any interleaving: as soon as each has applied two plans the zone is settled for all, and every plan any of them makes is empty. |
| `Fleet.FleetAtRest` | pkg/controller/controller.go:196-253 | From then on the zone does not change, plans still pending from before included. |
| `Scheduler.ApplyDefaults` | pkg/controller/controller.go:66-79 | Field by field: a positive duration is kept, any other becomes 60 s, 5 s, 5 s or 5 min. |
| `Scheduler.BackoffExact` | pkg/controller/controller.go:99-112 | While base·2^20 fits in int64: the base at the first failure, twice as much at each of the next twenty, never above the ceiling, from the 21st on the same; always positive. |
| `Scheduler.BackoffWraps` | pkg/controller/controller.go:99-112 | For any base: the product base·2^(k-1), wrapped around in int64, up to the ceiling. |
| `Scheduler.BackoffMonotone` | pkg/controller/controller.go:99-112 | It is then monotone in the failure count. |
| `Scheduler.BackoffPositiveIff` | pkg/controller/controller.go:99-112 | The delay is positive for every count iff base·2^20 fits in int64. |
| `Scheduler.BackoffOverflows` | pkg/controller/controller.go:99-112 | An instance: a base of 2^43 ns gives a negative delay at the 21st failure. |
| `Scheduler.StepKeepsInv` | pkg/controller/controller.go:137-192 | Each action of events, timers, callbacks and loop keeps the scheduler invariant. |
| `Scheduler.InvAlways` | pkg/controller/controller.go:131-192 | In every behaviour: no lost wake-up, exactly one next tick armed or ready at every select, its delay the one the results call for, the error count the length of the trailing failure run; and the loop has returned iff the context was cancelled. |
| `Scheduler.DelayLaw` | pkg/controller/controller.go:161-179 | With k failed reconciles since the last success, or since the start: the error count is k, an armed tick is due after the backoff for k, or after the interval (at the start, at once) if k is 0, and every end of a reconcile arms one. |
| `Scheduler.CausesFirst` | pkg/controller/controller.go:137-192 | Counted over every behaviour: each reconcile was asked for by a tick or a token, each token sent by a callback, each callback started by a debounce timer that fired, each firing set off by an event of its own, each tick by the start or the end of a reconcile. |
| `Scheduler.NeverStuck` | pkg/controller/controller.go:181-192 | Until the loop returns some internal action is enabled. |
| `Scheduler.ReconcilesForEver` | pkg/controller/controller.go:181-192 | From any state, with or without an unread event, every schedule of internal actions longer than a bound begins a reconcile. |
| `Scheduler.ReconcilesOnEvent` | pkg/controller/controller.go:145-190 | From every select an event can lead to a reconcile that reads it without waiting for the tick, which is cancelled. |
| `Scheduler.EveryEventIsRead` | pkg/controller/controller.go:145-192 | Once events pause, that reconcile reads the last of them. |
| `Reconcile.Controller.constructor` | pkg/controller/controller.go:115-127 | A new controller is not ready; an empty owner ID becomes the default one. |
| `Reconcile.Controller.Reconcile` | pkg/controller/controller.go:196-253 | Which error is returned when; ready is set exactly by a success; the zone is unchanged by a failed fetch or a dry run, otherwise it is the plan's; under the named preconditions it is the next zone, and an apply error comes iff an update failed and the zone was not settled. |
| `FakeProvider.Memory.constructor` | pkg/provider/fake/fake.go:29-35 | The store is the index of the initial endpoints, the history empty. |
| `FakeProvider.Memory.Records` | pkg/provider/fake/fake.go:38-46 | Every stored endpoint, as many as there are keys. |
| `FakeProvider.Memory.ApplyChanges` | pkg/provider/fake/fake.go:50-74 | The changes are applied and appended to the history; the store stays the replay of its history from the initial records. |
| `FakeProvider.PutAllGet` | pkg/provider/fake/fake.go:54-56 | Creates as a lookup, key by key; of several with one key the last wins. |
| `FakeProvider.ReplaceAllGet` | pkg/provider/fake/fake.go:57-62 | Any list of update pairs as a lookup: the last pair that touches a key stores its new endpoint there or leaves the key gone. |
| `FakeProvider.RemoveAllGet` | pkg/provider/fake/fake.go:63-65 | Deletes as a lookup, key by key. |
| `FakeProvider.StorePlans` | pkg/provider/fake/fake.go:38-46 | A store that mirrors a zone leads `Calculate` to the same plans as a transfer of the zone. |
| `FakeProvider.StoreRecordsAgree` | pkg/provider/fake/fake.go:50-74 | Applied to a mirror and to the zone, a plan leaves equal records iff the server refused none of its creates. |
| `FakeProvider.StoreMarkers` | pkg/provider/fake/fake.go:50-74 | The markers then differ exactly at names with both a create and a delete. |
| `Counterexamples.StoreLosesMarker` | pkg/provider/fake/fake.go:50-74 | An owned AAAA record replaced by an A record: the zone keeps the marker, the store does not. |
| `FakeProvider.StoreTracksZone` | pkg/provider/fake/fake.go:50-74 | The store mirrors the zone again iff nothing was refused and no name had both. |
| `ContainerLabels.LabelREIsLabel` | pkg/source/docker.go:28-29 | The label pattern matches exactly the labels of section 2.1 of RFC 1123. |
| `ContainerLabels.IsValidHostname` | pkg/source/docker.go:38-49 | Holds iff the name, one final dot aside, has 1 to 253 characters and only valid labels. |
| `ContainerLabels.HostnameIff` | pkg/source/docker.go:38-49 | Hostnames are exactly the valid labels joined by dots, at most 253 characters, with or without a final dot. |
| `ContainerLabels.IsValidTarget` | pkg/source/docker.go:54-62 | Holds iff the target is an address, or a hostname that does not look like a dotted quad. |
| `ContainerLabels.AlmostAddresses` | pkg/source/docker.go:51-62 | Four dot-separated runs of digits are a target iff they are the printed form of an address: 999.999.999.999 is not. |
| `ContainerLabels.OtherTargets` | pkg/source/docker.go:51-62 | Any other text is a target iff it is an address or a hostname. |
| `ContainerLabels.TrimSpaceSpec` | pkg/source/docker.go:225-258 | Trimming removes only space, and all of it at both ends. |
| `ContainerLabels.TrimSpaceOf` | pkg/source/docker.go:225-258 | Conversely, a text put between space is what trimming gives back. |
| `ContainerLabels.ParseSingle` | pkg/source/docker.go:224-264 | The endpoint iff hostname and target, trimmed, are valid and the TTL can be read: with that name and target, the TTL the number written there (a sign and leading zeros allowed, 300 for none or zero, no endpoint for a negative number, a non-number or one from 2^63 on), and the trimmed record type, or A, AAAA or CNAME by what the target parses as. |
| `ContainerLabels.ParsedFacts` | pkg/source/docker.go:224-264 | A parsed endpoint has one valid target, TTL at least 1 and a hostname without a bar. |
| `ContainerLabels.ParsedCanonicalIff` | pkg/source/docker.go:224-264 | Exactly when a parsed endpoint with an inferred type reads back equal. |
| `Counterexamples.DottedHostnameNeverSettles` | pkg/source/docker.go:38-49 | The labels of a container with hostname `app.`: accepted, and every plan for every well-formed zone is non-empty. |
| `Counterexamples.MappedAddressNeverSettles` | pkg/source/docker.go:54-62 | Target `::ffff:192.0.2.1`: accepted as an A record, and where the name is owned every plan is non-empty. |
| `Counterexamples.MappedAddressPlanned` | pkg/source/docker.go:54-62 | A configuration, a zone and a plan to which that applies. |
| `ContainerLabels.IndexKeyInjective` | pkg/source/docker.go:206 | Index keys of different indices differ. |
| `ContainerLabels.IndicesFit` | pkg/source/docker.go:205-217 | A map with m consecutive hostname indices has at least m labels, so the loop ends. |
| `ContainerLabels.LabelKeys` | pkg/source/docker.go:64-70 | The keys read, in literal texts: the prefix with hostname, target, ttl and record-type, and these with a hyphen and an index. |
| `ContainerLabels.CollectIndexed` | pkg/source/docker.go:205-217 | The valid records of indices 0..m-1 in order, m the least missing index. |
| `ContainerLabels.EndpointsFromLabels` | pkg/source/docker.go:194-220 | The plain record if valid, then the indexed ones below the first gap. |
| `ContainerLabels.EndpointsInOrder` | pkg/source/docker.go:194-220 | In order: the plain endpoint, then those of ascending indices, all indices below the first gap that have one. |
| `ContainerLabels.ListEndpoints` | pkg/source/docker.go:124-140 | The endpoints of the containers, one container after the other. |
| `ContainerLabels.InAllEndpoints` | pkg/source/docker.go:194-220 | Exactly the valid plain and indexed records; an invalid one hides none after it. |
| `ContainerLabels.SourceFacts` | pkg/source/docker.go:194-264 | Every endpoint of the source has a hostname without a bar, one valid target and a TTL of at least 1. |
| `ContainerLabels.SourceReadableIff` | pkg/source/docker.go:194-264 | A desired set from containers is readable iff its surviving endpoints are tidy: no final dot, TTL in range, canonical target, no owner-prefixed TXT. |
| `EndToEnd.LabelsToZone` | pkg/source/docker.go:194-264 | From labels to zone, in literal texts: for every hostname, IPv4 address and TTL, the first cycle of a container labelled with them writes to an empty zone the A record with that TTL and the marker with the owner's value, and nothing else. |

## Left out

- DNS wire format, TSIG, transfer transport, timeouts and `Preflight`: a transfer is a list of envelopes and an update a list of entries; an outcome is a parameter.
- NOTZONE: a server fails a whole message with an entry outside its zone (section 3.4.1.3 of RFC 2136). Here that is one of the outcomes without effect, not derived from the names.
- RRset TTLs: some servers give all records of a name and type one TTL. Here each record keeps its own, so `Safety.ForeignUntouched` does not see a change of TTL that another owner's marker would get when ours is written beside it.
- Delegations: a parent zone that holds NS or glue records at names of a configured child zone is outside `MultiZoneLaws.Routed`, so the refinement of one big zone does not cover it; split, dispatch and routing do.
- Name escapes and case folding of the DNS library: names are plain text, `Fqdn` adds one dot.
- IPv6 text: parsing and printing are parameters, of which only the round trip for eight 16-bit words that are not an IPv4-mapped address is used; dotted quads are concrete.
- Docker client, event stream, `Watch` and reconnects: the scheduler sees "an event arrived"; the container list is a parameter.
- `cmd/external-dns-docker/main.go`, metrics, logging, `pkg/source/fake`, `endpoint.String`: no effect on the zone, or easy members.
- The `Labels` map of an endpoint: carried by the source but never compared, planned or written.
- Goroutines of the fan-out: modelled as any completion order of the slots; the mutex of the in-memory provider and of the debounce handler as atomic steps.
- `Config.Once`: a single call of `Reconcile`, without the loop.
- Endpoint TTLs are unbounded integers; the conversion to 32 bits on writing is modelled, the 64-bit field itself is bounded only by the parser.
- `sort.Strings` is modelled as a function on values, not in place on a slice; the caller never sees the copy.
- Desired endpoints with several targets are modelled in every operation, but the cycle theorems ask for one target, which is what the label parser yields.
- Zones with different MinTTL: `MultiZone.ApplyAll` takes one configuration per zone; the refinement theorems take one for all.
- Text is a sequence of characters, so the 253 limit counts characters where the code counts bytes; a name with a multi-byte character is refused either way.
