# Ectobase, modelled and proved

Ectobase runs virtual machines over an overlay network. A route reflector collects what nodes announce and
replays it to subscribers; an agent on each node programs a dataplane from what it learned; controllers
allocate network ids, addresses and port blocks, compile firewalls and move VMs between pools. This
project models the parts whose correctness is a property of whole runs and proves it in Dafny.

How it is put together:

- A component that updates state in place is a class (`Reflector.RIB`, `Agent.Bus`, `EdgeAgent.EdgeBus`,
  `PortAllocator.Allocator`, `Queues.SessionQueue`, `SessionDriver.Driver`, `FirewallCompile.FwSet`). Each
  method's contract ties the whole new state to a step function on values (`RibState`, `BusState`,
  `EdgeState`, `NatGateway`), and the theorems are about runs of those steps.
- A protocol between components (address claims, VNI reconciles, VM moves, a node's session) is a state
  machine whose events may interleave in any way their guards allow.
- Where the program ranges over a map, the step takes the order it happened to walk, and theorems hold for
  every order. Where a call may fail, an oracle says which calls do, and theorems hold for every oracle.
- Text is read by parameters (`Texts`, `parse`, `show`, `legal`), a certificate is a predicate, time is a
  tick counter.

| area | modules |
|---|---|
| reflector | `RibState`, `RibViews`, `RibOwnership`, `RibFences`, `RibLogs`, `GlobalViews`, `OwnedTable`, `Reflector`, `Queues` |
| agent routes | `BusState`, `BusWanted`, `BusRetry`, `BusRelease`, `BusReplay`, `BusSync`, `BusResync`, `BusRepair`, `EndToEnd`, `Agent` |
| a node's announcements | `DesiredDiff`, `Lockstep`, `NodeSession`, `SessionGuard`, `Announcements`, `SessionDriver` |
| edge load balancers | `EdgeState`, `EdgeMirror`, `EdgeExact`, `EdgeAgent` |
| firewall compiler | `Firewall`, `FirewallAdmission`, `FirewallCompile` |
| allocators | `PortBlocks`, `NatGateway`, `NatLayout`, `NatRuns`, `PortAllocator`, `Ipam`, `AllocationNames`, `Claims`, `ClaimChoice`, `Vni`, `VniSpecs` |
| VM moves | `MoveGate` |
| shared | `Order`, `Addresses`, `RouteBus` |

What the code does not guarantee, stated with the exact condition:

- A NAT block that keeps its address and first port but changes its last is lost by the tick that changes
  it, because the agent's key holds the last port and the reflector's does not, and withdraws follow
  announces (`NodeSession.ResizedBlockIsLost`). Two desired records of one key that disagree are announced
  again on every tick, and the reflector ends on the wrong one (`NodeSession.DisagreeingRouteReturns`).
  `NodeSession.TickExact` is the if-and-only-if; for records that agree, `NodeSession.AgreeingTick`.
- A node that leaves a VNI and comes back may take an ADD of its first stay after it reset its count. The
  replay then counts one record too many, the prune is skipped, and routes that left meanwhile stay
  (`BusReplay.WithdrawnRouteStays`; `BusReplay.ReplayConverges` is the if-and-only-if).
- A release deletes by name what it listed earlier. If the name was collected and claimed by somebody else
  in between, the other's allocation goes (`Claims.StaleReleaseHitsAnother`;
  `Claims.DeleteHitsAnotherExactly` is the if-and-only-if).
- A gateway whose address list names one address twice may hand two sources the same ports, on its first pass
  (`NatLayout.FirstPassCollides`, `RepeatedAddressCollides`) or on a later one that the persisted table leads to
  (`RepeatedAddressMovesBlock`). `NatLayout.CollideExactly` is the if-and-only-if for any persisted table.
- On a list of distinct addresses, a shrunk list or a changed block size moves a source's ports, and nothing else
  does. On a list that repeats one, a source can also lose its block to the entry before it
  (`NatRuns.KeptExactly` is the if-and-only-if for any lists).
- A superseded stream that is still read can subscribe late and take its successor's subscription
  (`RibOwnership.LateSubscribeTakesOver`; `StepLiveExactly` is the if-and-only-if).
- A VM twin compiled before the release finalizer existed, deleted by hand while it runs, lets two pools run the VM
  (`MoveGate.CarelessDeleteSplits`; `StepSafeExactly` is the if-and-only-if).
- A load-balancer backend that is announced anew with another VNI keeps its old one at an edge that knows it
  (`EdgeMirror.KnownBackendKeepsItsVni`; `VnisAgreeExactly` is the if-and-only-if).
- An IPv6 pool whose prefix covers IPv4-mapped addresses offers one again after it was claimed, because the used
  set holds its IPv4 form: the next claim loses every round and reports exhaustion, though other addresses are free
  (`ClaimChoice.MappedPoolTurnsAway`; `NewAddressAlone` is the exact condition).
- A subscriber is not told of keys it originates itself (`RibViews.OwnKeysMustBeSetAside`).
- Clearing a fence re-advertises a key exactly when `RibFences.ReleaseReveals` says; the documented safe
  order is `SafeFenceRelease`.

`dafny verify dfyconfig.toml` checks the project.

## Model

| member | source | states |
|---|---|---|
| RibViews.SubscriberViewIsTable | mesh/reflector/rib.go:176-502 | in every run, folding the snapshot and deltas a current subscriber was handed gives exactly the fence-filtered, sorted nexthops of every key of its VNI it has not itself originated since subscribing |
| RibViews.OwnAnnounceNotEchoed | mesh/reflector/rib.go:239-259 | a node's own announce leaves its own subscription's view of that key as it was |
| RibViews.OwnKeysMustBeSetAside | mesh/reflector/rib.go:239-259 | the exclusion is needed: subscribe, announce one route, and the table advertises it while the own view lacks it |
| RibViews.ReplayView | mesh/reflector/rib.go:200-222 | a replay, folded, is the advertised table of its VNI: hidden keys absent, its own marker last |
| RibViews.RefilterEffect | mesh/reflector/rib.go:477-486 | a change of fences brings every non-origin subscriber of a listed key to the new advertised set and touches nothing else |
| RibViews.DropOriginKeepsInv | mesh/reflector/rib.go:299-313 | a teardown keeps every subscriber view equal to the table |
| RibOwnership.IndexesExact | mesh/reflector/rib.go:299-361 | in every reachable state the per-origin sets are exact inverses of the route, NAT and public tables, no empty route entry stands, and a cached global snapshot replays both tables with the right count |
| RibOwnership.StateBelongsToLiveSessions | mesh/reflector/rib.go:331-361 | when only current sessions call, every route, block, record, subscription and sink belongs to the live token of its node |
| RibOwnership.StepLiveExactly | mesh/reflector/server.go:73-142 | the condition is exact call by call: from such a state a subscribe or registration leaves such a state if and only if it comes from the current session of its node, an announce if and only if its node has a live session, and every other call does |
| RibOwnership.LateSubscribeTakesOver | mesh/reflector/server.go:73-142 | the failing run: a node connects twice and subscribes, its superseded stream subscribes late, and the subscription feeds the old stream |
| RibOwnership.SupersededReleaseIsNoOp | mesh/reflector/rib.go:351-361 | once a node id has been claimed again, releasing the earlier token changes nothing at all |
| RibOwnership.DropOriginClears | mesh/reflector/rib.go:299-313 | a teardown removes exactly the origin's contributions from all three tables and its subscriptions, and nobody else's |
| RibOwnership.WithdrawAllRoutes | mesh/reflector/rib.go:276-313 | withdrawing an origin key by key removes its contribution at exactly those keys |
| OwnedTable.DropAllConsistent | mesh/reflector/nattable.go:120-136 | tearing an origin out of a NAT or public table leaves index and owner map inverse to each other and every other record in place |
| OwnedTable.GuardNeverFires | mesh/reflector/nattable.go:123-130 | on a consistent table the stale-index guard is always passed |
| OwnedTable.PutConsistent | mesh/reflector/nattable.go:77-94 | an announce, even one that takes a record over, stores the record under its key with the caller as owner, leaves every other record and owner, and keeps index and owner map inverse to each other |
| OwnedTable.RemoveConsistent | mesh/reflector/nattable.go:101-116 | a withdraw by the owner removes that record and no other, and keeps index and owner map inverse to each other |
| GlobalViews.SinkViewIsTables | mesh/reflector/nattable.go:35-150 | in every run, folding by key the global snapshot and the NAT and public updates a registered node was handed gives exactly the blocks and records the reflector stores |
| GlobalViews.SnapshotFolds | mesh/reflector/nattable.go:35-67 | a shared global snapshot, folded from nothing, is the two tables, in whatever order it lists them |
| RibFences.AnnouncedFromEmpty | mesh/reflector/rib.go:515-574 | an empty answer means, and is given only when, no asked key in either spelling has an origin announcing it from inside the prefix |
| RibFences.SafeFenceRelease | mesh/reflector/rib.go:440-574 | after an empty answer, clearing the fence changes the advertised nexthops of no asked key in either spelling, whatever other fences stand |
| RibFences.ReleaseReveals | mesh/reflector/rib.go:440-486 | a release changes a key exactly when some origin announces a nexthop inside the fence that no other fence hides |
| RibFences.SetThenClear | mesh/reflector/rib.go:409-451 | setting a fence and clearing it restores every advertised set with no re-announce, unless it already stood |
| RibFences.SetFenceHides | mesh/reflector/rib.go:409-420 | after a fence is set the fences are the old ones and its network, no route is changed, and a nexthop is advertised if and only if it was before and the network does not contain it |
| RibFences.ClearFenceShows | mesh/reflector/rib.go:440-451 | after a fence is cleared a nexthop is advertised if and only if some origin announces it and no remaining fence contains it |
| RibFences.UnreadFenceIsIgnored | mesh/reflector/rib.go:409-451 | a text that is no network changes nothing |
| Reflector.RIB.Announce | mesh/reflector/rib.go:239-259 | stores the nexthops under (key, origin), indexes them, and sends the other subscribers the new set only if it changed; the whole new state is the matching step of RibState |
| Reflector.RIB.Withdraw | mesh/reflector/rib.go:262-270 | unindexes and removes one origin from one route; the whole new state is the matching step of RibState |
| Reflector.RIB.WithdrawRouteOrigin | mesh/reflector/rib.go:276-292 | the last origin leaving removes the route; the change is fanned out to all; the whole new state is the matching step of RibState |
| Reflector.RIB.Subscribe | mesh/reflector/rib.go:176-223 | registers the sink and hands it the whole replay and its counting marker; a repeat does nothing; the whole new state is the matching step of RibState |
| Reflector.RIB.SetFence | mesh/reflector/rib.go:409-420 | adds the canonical network, if it is one and new, and fans out each changed key; the whole new state is the matching step of RibState |
| Reflector.RIB.ClearFence | mesh/reflector/rib.go:440-451 | removes it and fans out each changed key; the whole new state is the matching step of RibState |
| Reflector.RIB.Refilter | mesh/reflector/rib.go:477-486 | recomputes every stored key under the new fences, skipping its origins; the whole new state is the matching step of RibState |
| Reflector.RIB.AnnouncedFrom | mesh/reflector/rib.go:515-539 | the asked keys, in order, with each origin and nexthop that holds them from inside the network; the whole new state is the matching step of RibState |
| Reflector.RIB.DropOrigin | mesh/reflector/rib.go:299-313 | routes, subscriptions, NAT blocks and public records of one origin, in one step; the whole new state is the matching step of RibState |
| Reflector.RIB.ClaimOrigin | mesh/reflector/rib.go:331-343 | a fresh token, and the predecessor's state torn down in the same step; the whole new state is the matching step of RibState |
| Reflector.RIB.ReleaseOrigin | mesh/reflector/rib.go:351-361 | teardown only for the token that is current; the whole new state is the matching step of RibState |
| Reflector.RIB.WithdrawNat | mesh/reflector/nattable.go:101-117 | applied, absent or refused, by origin and certificate; the table changes only when applied |
| Reflector.RIB.DropNats | mesh/reflector/nattable.go:120-136 | withdraws each of the origin's blocks that it still holds |
| Reflector.RIB.RegisterSink | mesh/reflector/nattable.go:35-40 | the shared snapshot, built at most once per change, to the new sink |
| Reflector.RIB.GlobalSnapshot | mesh/reflector/nattable.go:45-64 | both tables and the marker that counts them, from the cache when it stands |
| Reflector.RIB.WithdrawPublic | mesh/reflector/publictable.go:76-92 | applied, absent or refused, by origin and certificate |
| Reflector.RIB.DropPublics | mesh/reflector/publictable.go:95-111 | withdraws each of the origin's records that it still holds |
| Reflector.AdvertisedNexthops | mesh/reflector/rib.go:490-502 | the sorted, deduplicated nexthops no fence hides |
| Reflector.MergeNexthops | mesh/reflector/rib.go:44-57 | every nexthop of every origin once, ascending |
| Reflector.NexthopFenced | mesh/reflector/rib.go:593-604 | true exactly for a parsable nexthop inside some fence |
| Queues.QueueKeepsSnapshots | mesh/reflector/queue.go:52-113 | in every run the drain gets, in order, every snapshot whole and all deltas but the counted dropped ones; the counter is the number of deltas that wait, never more than the cap |
| Queues.DropsOnlyWhenFull | mesh/reflector/queue.go:52-69 | an open queue drops a delta if and only if exactly the cap of deltas waits, and else appends it |
| Queues.DroppingExactly | mesh/reflector/queue.go:52-100 | the queue says it is dropping if and only if it dropped a delta and has not been drained since |
| Queues.ClosedExactly | mesh/reflector/queue.go:52-113 | the queue is closed if and only if it was shut, and ignores what it is offered from then on |
| Queues.SessionQueue.TryTake | mesh/reflector/queue.go:84-100 | takes everything that waits, in order |
| BusReplay.ReplayConverges | mesh/agent/bus.go:869-914 | after a whole replay the learned table of the VNI is the advertised one if and only if no ADD of the VNI came between the reset and the replay, or nothing held by then has left the table |
| BusReplay.ReplayExactly | mesh/agent/bus.go:843-914 | from any stale table and after any messages, a whole replay leaves every advertised key as advertised, and forgets one that is not if and only if no ADD of the VNI came since the reset; else it stays as it was |
| BusReplay.WithdrawnRouteStays | mesh/agent/bus.go:869-936 | the failing run: subscribe, a peer announces, unsubscribe, the peer withdraws, subscribe again before the announce arrives; the prune is skipped and the node holds a route nobody advertises |
| BusReplay.ResubscribedAgentHolds | mesh/agent/bus.go:843-936 | in every run of the reflector, however often the VNI was asked for: a node that drained a queue which dropped nothing holds exactly the advertised nexthops, if no ADD of the VNI lay between its last reset and the replay |
| RibLogs.LogsAreOrderly | mesh/reflector/rib.go:176-361 | in every run, every sink was handed only whole replays, global snapshots and deltas whose ADDs name nexthops and WITHDRAWs none, nothing of a VNI before its first replay, and every subscriber has had one |
| RibLogs.LogAroundReplay | mesh/reflector/rib.go:176-234 | a subscriber's log is some prefix, a whole replay of a table, and live envelopes; if the node asked once, the prefix says nothing of the VNI |
| RibLogs.ReplaysAreAsked | mesh/reflector/rib.go:176-223 | a sink is handed no more replays of a VNI than it asked for |
| BusReplay.ShortReplayForgetsNothing | mesh/agent/bus.go:882-891 | a replay whose records do not number what its marker says forgets no prefix |
| BusReplay.AgentFollowsView | mesh/agent/bus.go:1075-1102 | from a replay no ADD slipped in before, what the agent holds of the VNI, the public one included, is the subscriber's view of the envelope log |
| BusReplay.AgentHoldsTheTable | mesh/agent/bus.go:843-867 | end to end, for every run: a node that asked for the VNI once and drained a queue which dropped nothing holds exactly the advertised nexthops (of a public prefix, the first) |
| BusSync.ApplyConverges | mesh/agent/bus.go:1075-1194 | if every dataplane key matched its wanted route, it does after any route update, and only the own, importer and egress keys were touched |
| BusSync.DesiredLocal | mesh/agent/bus.go:1135-1156 | a changed learned route can change the wanted route only of its own key, its importers and, on the public VNI, the egress keys |
| BusWanted.DesiredIsWanted | mesh/agent/bus.go:1135-1156 | the wanted route, exactly: a route learned on the key decides alone, on its own VNI, and wants nothing if it names no usable nexthop; else that of the first peering import that covers the prefix and has a usable route, delivered on the peer VNI and never external; else, on an egress key, the public route; else none |
| BusWanted.PicksExactly | mesh/agent/bus.go:1518-1538 | the nexthop programmed is the first learned one, except for a local host, where it is the first that is not this node |
| BusWanted.ConvergedHoldsWanted | mesh/agent/bus.go:1135-1200 | when the dataplane matches what is wanted it holds at each key exactly that nexthop, delivery VNI and external flag, or nothing |
| EndToEnd.DataplaneFollowsReflector | mesh/agent/bus.go:843-1200 | end to end over both runs: when the queue dropped nothing and is drained and the dataplane has settled, every advertised key of the VNI that the node neither originated nor hosts is routed to the first nexthop the reflector advertises, on its own VNI |
| EndToEnd.LearnedIsFold | mesh/agent/bus.go:843-1107 | in every run of the agent, failing calls and losses and all, the learned routes are the fold of the messages it took, over any stretch that is not reconfigured and that no local guest leaves |
| BusRetry.RetriesThinOut | mesh/agent/bus.go:1202-1236 | a key that is refused the same route again and again is called, of all its turns, exactly in those 0, 1, 3, 7, ... ticks after the first refusal: pauses of 1, 2, 4, ... ticks, sixty at most |
| BusRetry.BackoffDoubles | mesh/agent/bus.go:1202-1222 | the pause is one tick, then twice the last one, and sixty ticks at most |
| BusRetry.CalledExactly | mesh/agent/bus.go:1165-1236 | in its turn a key is called if and only if the tick has not stopped, budget is left, the key is not as programmed and it does not rest; a withdraw never rests; only an unreachable dataplane or a spent budget stops the tick |
| BusRetry.RetryAfterTurn | mesh/agent/bus.go:1165-1243 | what a turn leaves of the retry of its key: a retry for a route no longer wanted is forgotten, an accepted call ends it, an unreachable dataplane leaves it, a refusal counts one more for the same wish or starts at one; no other retry changes |
| BusRetry.ResendOrder | mesh/agent/bus.go:680-706 | a full re-send goes to held local host keys before all others, and within both by VNI, then prefix |
| BusRetry.FullResendExactly | mesh/agent/bus.go:662-706 | a tick queues a full re-send if and only if it reads the interfaces after a failed read or of another instance, or the dataplane names no instance, nothing is queued and the sweep is due |
| BusRetry.RetriesOfReachedKeys | mesh/agent/bus.go:708-730 | a tick first drops the retries of keys nothing wants or has programmed, and no others of keys that are not as programmed |
| BusRelease.RefreshedView | mesh/agent/bus.go:1458-1511 | after the interfaces are read, local host keys, own VTEPs and held routes are exactly these: the keys that left lose this node from their held route, no other route changes |
| BusRelease.DepartedNeverPointsHere | mesh/agent/bus.go:1505-1540 | the key of a guest that left wants the first nexthop of its held route that is not this node, and nothing if there is none |
| BusRelease.ReleaseEachSifts | mesh/agent/bus.go:1505-1511 | releasing keys takes this node out of exactly their held routes, with one call each |
| BusSync.PruneConverges | mesh/agent/bus.go:882-914 | the prune at the end of a replay keeps every key matching |
| BusRepair.RecordNeverLies | mesh/agent/bus.go:1165-1259 | without a dataplane loss, `programmed` never misstates the dataplane, whichever failed calls landed, whatever restarts or outages were suspected and re-sent for |
| BusRepair.NothingOwedIsForgotten | mesh/agent/bus.go:680-754 | in every run of updates, prunes, whole ticks, edits and losses, once a full re-send has been queued since the loss each key is recorded truthfully, marked unknown, or still queued |
| BusRepair.RestartNoticedExactly | mesh/agent/bus.go:1458-1466 | a tick takes the dataplane for restarted if and only if it gets an answer and the tick before got none or one of another instance |
| BusRepair.RestartAlwaysNoticed | mesh/agent/bus.go:1458-1466 | between answers of two instances some tick notices, whatever reads failed in between |
| BusRepair.UnchangedViewTicks | mesh/agent/bus.go:662-676 | a tick that finds the interfaces as they were and owes no re-send is the resync alone |
| BusRepair.ResyncConverges | mesh/agent/bus.go:708-754 | d drifted and q owed keys converge in ceil((d+q)/256) ticks to the wanted route on every key, and the next tick makes no call |
| BusRepair.EventuallyRestored | mesh/agent/bus.go:662-754 | whatever was backing off, once calls are accepted every wanted route is back within the longest backoff plus those ticks |
| BusRepair.LossIsRepaired | mesh/agent/bus.go:662-754 | in one run: any loss before the next tick, a later answer of another instance, then steady answers and accepted calls bring every wanted route back within the longest backoff plus ceil((d+q)/256) ticks |
| BusResync.TickPays | mesh/agent/bus.go:708-754 | a tick pays a full budget of 256 off the debt, or all of it, and adds none |
| BusResync.DriftReached | mesh/agent/bus.go:768-795 | every key that wants or has a route is one the resync visits |
| Agent.Bus.SyncKey | mesh/agent/bus.go:1165-1194 | calls only on a difference or when forced; success records, an unknown outcome marks unknown, failure backs off; the whole new state is the matching step of BusState |
| Agent.Bus.SyncLearned | mesh/agent/bus.go:1109-1122 | syncs exactly the own or egress keys and the importers of a learned route; the whole new state is the matching step of BusState |
| Agent.Bus.Apply | mesh/agent/bus.go:1075-1102 | counts, marks and records one update, then programs what it feeds; the whole new state is the matching step of BusState |
| Agent.Bus.PruneVNI | mesh/agent/bus.go:882-914 | forgets and unprograms what a complete replay did not name; nothing when the count differs; the whole new state is the matching step of BusState |
| Agent.Bus.AllRouteKeys | mesh/agent/bus.go:768-795 | every key the learned routes reach or the record holds; the whole new state is the matching step of BusState |
| Agent.Bus.QueueFullResend | mesh/agent/bus.go:680-699 | owes every key once, held local hosts first; the whole new state is the matching step of BusState |
| Agent.Bus.BackingOff | mesh/agent/bus.go:1225-1235 | waits only for the very route that was refused; the whole new state is the matching step of BusState |
| Agent.Bus.ResyncRoutes | mesh/agent/bus.go:708-754 | drifted keys, then owed re-sends, within one budget, stopping at an unreachable dataplane; the whole new state is the matching step of BusState |
| Agent.Bus.ReleaseLocalHost | mesh/agent/bus.go:1505-1511 | this node's own VTEPs leave the held route, and the key is re-asserted; the whole new state is the matching step of BusState |
| Agent.Bus.RefreshLocalHosts | mesh/agent/bus.go:1458-1497 | the new view of the interfaces, every departed key released, and whether the dataplane may have restarted; the whole new state is the matching step of BusState |
| Agent.Bus.SyncRoutes | mesh/agent/bus.go:662-676 | one whole tick: interfaces re-read, a full re-send queued on a restart or a due sweep, then the resync; the whole new state is the matching step of BusState |
| NodeSession.LockstepAnnounce | mesh/agent/bus.go:555-648 | over every run of ticks, broken sends, lost sessions, reconnects and other nodes' traffic, the reflector stores from the node exactly its last desired routes, blocks and records once the sent messages are handled, and nothing after the session |
| NodeSession.LastTickIsAnnounced | mesh/agent/bus.go:555-648 | from a tick to the next one or to a reconnect, what the reflector ends with is the desired set that tick computed |
| NodeSession.ReconnectsBeforeTick | mesh/agent/bus.go:555-660 | after a lost session or a broken send the driver computes no delta before it has reconnected |
| Announcements.DesiredIsObserved | mesh/agent/bus.go:555-648 | from one node to another through every run: once the session stands and its wire is handled, a subscriber elsewhere observes for each route the last tick wanted the nexthop of the node, unless a fence hides it |
| Announcements.ReflectorRuns | mesh/reflector/server.go:73-142 | the reflector inside any run of a node is in a legal run of its own, each message, claim and release being one of its operations |
| NodeSession.TickExact | mesh/agent/desired.go:101-182 | one tick's messages take the stored contribution from the applied set to the next one if and only if the two settle, whatever duplicates they hold |
| NodeSession.AgreeingTick | mesh/agent/desired.go:101-182 | sets whose records of one key are equal, two backends of one address on a node included, settle if and only if no leaving NAT block starts at the address and port of a wanted one |
| NodeSession.DisagreeingRouteReturns | mesh/agent/desired.go:63-68 | the other failing family: two routes of one key that disagree; the unchanged set announces the first again and the reflector ends on it |
| NodeSession.ResizedBlockIsLost | mesh/agent/desired.go:71 | the failing family: a block that changes only its last port is announced and then withdrawn, and is gone |
| NodeSession.HandleAbsorbs | mesh/reflector/server.go:83-140 | a handled client message changes the node's stored contribution, and only as the message says, when its certificate covers every nexthop it names |
| SessionGuard.RefusedExactly | mesh/reflector/server.go:87-142 | a message is refused, and changes nothing, if and only if it names a nexthop, an extra nexthop, an owner or an edge address the certificate does not speak for; any other acts for its own node |
| SessionGuard.OnlyVouchedIsStored | mesh/reflector/server.go:73-142 | whatever a session sends, everything the reflector stores under its node is vouched for by the certificate, if it was before |
| SessionGuard.ClaimedSessionIsVouched | mesh/reflector/server.go:40-142 | a session that takes over its id, or finds nothing stored under it, stores only what its certificate speaks for, whatever it sends |
| Lockstep.DiffExact | mesh/agent/desired.go:101-182 | announcing changed records and then withdrawing left keys yields the wanted store if and only if no left key shares its store key with a wanted record and, of the records of each key, the last one sent or else the last applied one is the last wanted |
| Lockstep.AgreeingSettles | mesh/agent/desired.go:101-182 | where records that share a store key agree, that comes down to no left key sharing its store key with a wanted record |
| Lockstep.UnchangedSettles | mesh/agent/desired.go:63-68 | a list sent again unchanged settles if and only if its records of one key are equal |
| Lockstep.OwnStep | mesh/reflector/rib.go:239-292 | each own operation changes the node's contribution at its own key alone |
| Lockstep.ForeignStep | mesh/reflector/rib.go:239-361 | no other node's operation, short of a takeover, changes this node's contribution |
| Lockstep.TeardownClears | mesh/reflector/rib.go:299-313 | after a teardown nothing of the node is stored |
| DesiredDiff.DiffDesired | mesh/agent/desired.go:101-182 | announces exactly the new and changed records in order and withdraws exactly the keys no longer wanted |
| DesiredDiff.UnchangedSendsNothing | mesh/agent/desired.go:63-68 | an unchanged desired set yields an empty delta if and only if its records of one key are equal; else exactly the routes that differ from the last of their key are announced again |
| DesiredDiff.PubKeyNames | mesh/agent/desired.go:78-80 | the printed key identifies the four key fields, as long as none holds the separator |
| SessionDriver.Driver.SendDelta | mesh/agent/bus.go:928-973 | sends a prefix of subscribes, announces, withdraws, unsubscribes, the whole of it exactly on success |
| SessionDriver.Driver.ReconcileStep | mesh/agent/bus.go:625-648 | only a delta sent whole becomes the applied set; a failed reconcile or an empty delta sends nothing |
| EdgeMirror.MirrorMatchesDataplane | mesh/agent/public.go:144-305 | in every run, whichever calls fail, each recorded balancer stands on the dataplane with those ports, backends and VNIs |
| EdgeExact.NothingLeftBehind | mesh/agent/public.go:144-305 | in every run, whichever calls fail: until the agent restarts the dataplane holds the recorded balancers and, untouched, only what it held before that no record has named |
| EdgeExact.TableIsMirror | mesh/agent/public.go:144-305 | beside a dataplane that held no balancer, record and dataplane are equal in every state |
| EdgeExact.ReconnectConverges | mesh/agent/bus.go:348-441 | after any history, a new session or a restarted agent that takes a whole snapshot ends with exactly the replayed backends attached and no empty balancer |
| EdgeExact.RegisterExactly | mesh/agent/public.go:205-223 | registering, by which of its calls fail: what is recorded, what the dataplane holds, how many calls were made |
| EdgeExact.AttachExactly | mesh/agent/public.go:179-187 | attaching is one call, and shows in record and dataplane or in neither |
| EdgeExact.ReattachExactly | mesh/agent/public.go:158-178 | a rebuild re-attaches by one call each exactly the backends whose call does not fail |
| EdgeExact.RebuildExactly | mesh/agent/public.go:158-178 | a port change, by which of its calls fail: a failed delete leaves the old balancer, a failed registration none |
| EdgeExact.WithdrawExactly | mesh/agent/public.go:229-253 | a withdraw, by which of its calls fail: a failed detach changes nothing, and the last backend to go takes the balancer along |
| EdgeMirror.KnownReplayIsSilent | mesh/agent/public.go:144-187 | replaying records already in force makes no dataplane call |
| EdgeMirror.SnapshotConverges | mesh/agent/public.go:102-305 | from any stale mirror and dataplane, a replay with successful calls and its marker: with the right count exactly the replayed backends stay and no empty balancer, with a wrong one nothing goes; replayed balancers have the ports of their last record, new backends the VNI of their first, known backends their old VNI |
| EdgeMirror.VnisAgreeExactly | mesh/agent/public.go:144-187 | after a snapshot every replayed backend has the VNI its records name if and only if those agree and the mirror knew no other one for it |
| EdgeMirror.KnownBackendKeepsItsVni | mesh/agent/public.go:179-181 | the failing run: attach with VNI 1, a new session, the same backend with VNI 2, and VNI 1 stays |
| EdgeMirror.PortsToldAgree | mesh/agent/public.go:144-187 | the ports a snapshot leaves are those of every record if and only if the records of a balancer agree |
| EdgeMirror.ReplayIsIdempotent | mesh/agent/public.go:144-187 | a snapshot that agrees on ports, once applied, replays without a call |
| EdgeMirror.PruneKeepsSeen | mesh/agent/public.go:283-305 | a successful prune keeps exactly the attached backends this session has seen |
| EdgeMirror.RecordHealthy | mesh/agent/public.go:102-117 | while calls succeed, adds and withdraws keep every entry this session has seen attached, on both sides |
| EdgeMirror.PrepareHealthy | mesh/agent/public.go:144-223 | a port change rebuilds the balancer without losing a backend, and a stale registration is re-created |
| EdgeAgent.EdgeBus.RegisterLoadBalancer | mesh/agent/public.go:205-223 | create, else delete and create; recorded only on success |
| EdgeAgent.EdgeBus.RebuildLoadBalancer | mesh/agent/public.go:158-178 | delete, register, re-attach; the whole new state |
| EdgeAgent.EdgeBus.AddBackendRecord | mesh/agent/public.go:144-187 | registers or rebuilds as needed, then attaches unless attached; the whole new state |
| EdgeAgent.EdgeBus.DelBackendRecord | mesh/agent/public.go:229-253 | detaches, and deletes the balancer when it was the last; the whole new state |
| EdgeAgent.EdgeBus.PruneLbBackends | mesh/agent/public.go:283-305 | detaches what the snapshot did not carry and deletes empty balancers; the whole new state |
| EdgeAgent.EdgeBus.ApplyLbRecord | mesh/agent/public.go:102-117 | marks the record seen whether or not the attach succeeds; the whole new state |
| EdgeAgent.EdgeBus.PruneGlobal | mesh/agent/bus.go:431-441 | prunes only when as many records came as the marker says; the whole new state |
| FirewallCompile.CompilePreservesMeaning | mesh/controllers/firewall_compile.go:200-260 | for every admitted policy set, default and packet, first match over the compiled list allows exactly what the policies say: the matching rule with the smallest policy priority, rule priority (32768 when unset), policy name and position decides, and the default where none matches |
| FirewallCompile.ImplicitComeLast | mesh/controllers/firewall_compile.go:69-79 | the default-allow entries rank after every rule an admitted policy can have, IPv4 before IPv6 |
| FirewallCompile.CompileIgnoresPolicyOrder | mesh/controllers/firewall_compile.go:200-260 | the same policies in any order compile to the same rules in the same order, the same budget excess, or an uninterpretable rule either way |
| FirewallCompile.InsertionOrderIrrelevant | mesh/controllers/firewall_compile.go:149-159 | whatever the order of arrival, exactly the rules no better-ranked rule covers survive |
| FirewallCompile.OutcomeCompiles | mesh/controllers/firewall_compile.go:200-260 | the outcome lists exactly the unshadowed rules of each direction, or names a bad rule, or the exceeded budget |
| FirewallCompile.SurvivingShadower | mesh/controllers/firewall_compile.go:149-159 | whatever shadows a rule, a surviving rule shadows it too |
| FirewallCompile.CompileFirewall | mesh/controllers/firewall_compile.go:200-260 | the loops over policies and rules compute that outcome |
| FirewallCompile.FwSet.Insert | mesh/controllers/firewall_compile.go:149-159 | drops a covered newcomer, else evicts what it covers and appends |
| FirewallCompile.FwSet.Rules | mesh/controllers/firewall_compile.go:162-169 | the entries in rank order |
| FirewallCompile.FwSet.Count | mesh/controllers/firewall_compile.go:171-179 | how many entries one family holds |
| Firewall.CoversExact | mesh/controllers/firewall_compile.go:122-136 | one rule covers another if and only if it matches every packet the other matches |
| Firewall.CoversTransitive | mesh/controllers/firewall_compile.go:122-136 | covering is transitive |
| Firewall.NewEntryMeansTheRule | mesh/controllers/firewall_compile.go:82-117 | lowering an admitted rule succeeds and keeps what it matches |
| Firewall.RangesOnly | mesh/controllers/firewall_compile.go:82-117 | the datapath is given an end port for a true range only, and an ICMP code only with its type |
| Firewall.RankOrder | mesh/controllers/firewall_compile.go:58-66 | the rank comparison is antisymmetric and total on distinct ranks |
| Firewall.RankExactly | mesh/controllers/firewall_compile.go:58-66 | a rank is smaller if and only if it is in the first of these that differ: policy priority, rule priority, namespace, policy name, position |
| FirewallAdmission.ComplaintsExactly | api/net/firewallpolicy_validate.go:63-128 | admission makes a complaint about a rule if and only if the rule has that fault, each of the fifteen faults in its own words |
| FirewallAdmission.AdmittedExactly | api/net/firewallpolicy_validate.go:63-128 | a rule draws no complaint if and only if it is proper: a network without host bits, a known action and protocol, ports, ranges and ICMP selectors within bounds and with what they need |
| FirewallAdmission.PolicyAdmittedExactly | api/net/firewallpolicy_validate.go:25-61 | a policy is admitted if and only if its priority is within bounds and all its rules are proper |
| NatRuns.ListedSourceKeepsBlock | mesh/controllers/natgateway.go:171-195 | over whole runs of any address lists, repeats included, and any sizes, a source listed in every pass from i to j keeps its exact address and ports if and only if each of those passes still lists the address, has the same block size, and meets a table in which no entry before the source's has its address and first port or its turn brings the block back; with distinct addresses the last is always so |
| NatGateway.BlocksNeverOverlap | mesh/allocator/portblock.go:96-147 | for any persisted table, any size and any list of distinct addresses, what a pass writes gives distinct sources no common port, every port in 1024..65535 and every block exactly `size` long |
| NatRuns.KeptExactly | mesh/allocator/portblock.go:63-116 | for any lists, a persisted block of a listed source is kept if and only if its address is still listed, the block size is unchanged, and no entry before it has its address and first port or the source gets it back in its turn |
| NatRuns.DroppedBlockRests | mesh/allocator/portblock.go:109-116 | on distinct addresses a block is given to nobody in the pass that drops its source, if the block size stays |
| NatGateway.PassOk | mesh/controllers/natgateway.go:171-195 | a pass of unchanged size keeps every listed source whose address is still listed, gives no persisted block to another, lists only asked sources, and refuses one only when every index is taken |
| NatLayout.RepeatedAddressCollides | mesh/allocator/portblock.go:49-147 | the smallest failing input: one block per address, an address listed twice, two sources, the very same block |
| NatLayout.CollideExactly | mesh/allocator/portblock.go:49-147 | for any addresses, size, persisted table and sources, two sources share a port if and only if both indices of one slot of an address listed twice are given out: pinned for a listed source by the persisted table, or unused with fewer unused indices below than there are listed sources without a pin |
| NatLayout.FirstPassCollides | mesh/allocator/portblock.go:49-147 | without a persisted table that comes down to the distinct sources, as far as blocks reach, outnumbering the blocks of the addresses before the first repeated one |
| NatLayout.RepeatedAddressMovesBlock | mesh/allocator/portblock.go:70-147 | the second failing input: three passes over [ip, ip], where the second gives b the block a holds and the third moves b with list and size unchanged |
| NatLayout.WritesExactly | mesh/controllers/natgateway.go:171-195 | exactly the entries a pass writes, for any addresses, size, persisted table and sources |
| NatLayout.PinnedExactly | mesh/allocator/portblock.go:109-116 | a persisted entry pins its source if and only if no entry before it has its address and first port |
| PortBlocks.OverlapExactly | mesh/allocator/portblock.go:96-103 | two indices share a port if and only if they name the same slot of an address listed twice |
| PortBlocks.BlocksPerIPExactly | mesh/allocator/portblock.go:48-60 | as many whole blocks as fit into the ports 1024 to 65535, and none of no size |
| PortBlocks.IndexOfBlockAt | mesh/allocator/portblock.go:70-103 | block to index undoes index to block |
| PortBlocks.BlockAtIndexOf | mesh/allocator/portblock.go:70-103 | an index found for a block names that address and first port |
| PortBlocks.IndexSurvivesGrowth | mesh/allocator/portblock.go:70-103 | a block keeps an index, and its value, in any list that still holds its address |
| PortBlocks.BlockInRange | mesh/allocator/portblock.go:96-103 | every block lies on a pool address within the usable ports |
| PortAllocator.Allocator.constructor | mesh/allocator/portblock.go:49-61 | an empty allocator with 64512/size blocks per address, none for a non-positive size |
| PortAllocator.Allocator.BlockToIndex | mesh/allocator/portblock.go:70-93 | the index, or none for a missing address, an unaligned or an out-of-range port |
| PortAllocator.Allocator.Preassign | mesh/allocator/portblock.go:109-116 | pins a persisted block by value, or ignores it |
| PortAllocator.Allocator.Assign | mesh/allocator/portblock.go:125-147 | the held block, else the lowest free one, else none |
| PortAllocator.AssignAll | mesh/controllers/natgateway.go:171-195 | persisted assignments first, then the sources, counting the refused |
| PortAllocator.InsertSorted | mesh/controllers/natgateway.go:260-269 | inserts before the first address that is greater or unreadable |
| PortAllocator.GrownListIsCanonical | mesh/controllers/natgateway.go:260-269 | the grown list is the ascending list the next pass reads back |
| PortAllocator.SyncTable | mesh/controllers/natgateway.go:120-140 | grows only when a source is refused and an address is to be had, and lays out again from the persisted table |
| Ipam.LowestFree | mesh/allocator/ipam.go:42-57 | the least address of the prefix outside used and reserved, inspecting at most one address more than those |
| Ipam.LowestFreeIsLeast | mesh/allocator/ipam.go:42-57 | least in both directions: none exactly when every member is taken |
| Ipam.LastAddrIsTop | mesh/allocator/ipam.go:25-36 | the byte shifts and bit-or give the true top of the prefix for every length 0..32 |
| Ipam.ReservedAreEnds | mesh/allocator/ipam.go:15-22 | reserved are exactly the bottom address and, for IPv4, the top |
| Ipam.PrefixIsInterval | mesh/allocator/ipam.go:60-65 | membership is an interval of one family |
| Ipam.UnmapExactly | mesh/controllers/ipalloc.go:50-56 | the 2^32 IPv4-mapped addresses stand for the IPv4 addresses in turn, every other address for itself |
| AllocationNames.NamesInjective | mesh/controllers/ipalloc.go:52-70 | two names agree if and only if pool and unmapped address agree, across both families |
| AllocationNames.GroupsInjective | mesh/controllers/ipalloc.go:52-70 | the dashed groups determine the address |
| Claims.OneOwnerPerAddress | mesh/controllers/ipalloc.go:122-220 | under any interleaving of claims, grows, releases and collection, an address of a pool has at most one allocation |
| Claims.RefusedOnlyBySameAddress | mesh/controllers/ipalloc.go:187-194 | a create is refused only over an allocation of the very same pool and address |
| Claims.ReturnedAddressWasOwned | mesh/controllers/ipalloc.go:122-220 | every returned address is in the prefix, unreserved, and was held by the caller at a moment of the call; a grow's was held by nobody just before |
| Claims.ReturnStep | mesh/controllers/ipalloc.go:122-220 | the same of the single step that returns |
| Claims.DecisionAllocatable | mesh/controllers/ipalloc.go:138-170 | what a round keeps or tries lies in the prefix, is not reserved and has a legal name |
| ClaimChoice.NewAddressDecision | mesh/controllers/ipalloc.go:138-170 | when a new address is due the round finds the pool full if and only if every address it may hand out is used; otherwise it asks for the preferred one if that is free, else for the lowest free one, if the name is legal |
| ClaimChoice.HeldDecision | mesh/controllers/ipalloc.go:151-164 | a consumer that holds an address it may keep keeps the lowest |
| ClaimChoice.PinnedDecision | mesh/controllers/ipalloc.go:138-150 | a pin is refused outside the pool, on a barred address or over another consumer, kept when held, and otherwise asked for |
| ClaimChoice.NewAddressAlone | mesh/controllers/ipalloc.go:121-219 | a whole call due a new address, with nobody else acting: exhausted when the pool is full, otherwise the picked address newly allocated to the caller when its name is legal and the address it spells unused, with the one other case exact |
| ClaimChoice.MappedPoolTurnsAway | mesh/controllers/ipalloc.go:122-219 | the failing run: an IPv6 pool of IPv4-mapped addresses; one consumer claims the lowest, and the next, acting alone, is told the pool is exhausted while another address is free |
| ClaimChoice.HeldAlone | mesh/controllers/ipalloc.go:121-219 | a whole call of a consumer that holds an address it may keep returns the lowest such and changes nothing |
| ClaimChoice.PinnedAlone | mesh/controllers/ipalloc.go:121-219 | a whole pinned call with nobody else acting: each of its five endings, and the store it leaves |
| ClaimChoice.PrefixServesFamily | mesh/controllers/ipalloc.go:359-379 | a pin is served from its own family, an unpinned claim from IPv4 when the pool has it, and none exactly when the pool offers no such prefix |
| Claims.CallsEnd | mesh/controllers/ipalloc.go:130-219 | no spinning: each step of a call brings its end nearer, within five rounds of three steps |
| Claims.ReleasesEnd | mesh/controllers/ipalloc.go:247-274 | each delete of a release leaves it exactly that name less, and no other event touches what it has listed |
| Claims.HeldIn | mesh/controllers/ipalloc.go:324-335 | the lowest allocatable address already held |
| Claims.Namespace.ReleaseClaimsExcept | mesh/controllers/ipalloc.go:247-274 | with nobody acting between the list and the deletes: deletes exactly the listed allocations this consumer owns, except the kept one |
| Claims.ReleaseIsExact | mesh/controllers/ipalloc.go:247-274 | with nobody acting between the list and the deletes: the consumer is left with at most the kept address, and nobody else's allocation goes |
| Claims.DeleteHitsAnotherExactly | mesh/controllers/ipalloc.go:247-274 | under any interleaving, the delete of a listed name takes somebody else's allocation if and only if that name was removed and created anew for somebody else since the list |
| Claims.StaleReleaseHitsAnother | mesh/controllers/ipalloc.go:247-274 | the failing run: list, the collector removes the allocation, another consumer claims the address, and the delete by name takes it away |
| Vni.ReadyVnisAreUnique | mesh/controllers/vpc.go:52-202 | under any creates, pin edits, deletes and serialized reconciles, even stale or overtaken ones, no two Ready VPCs share a VNI |
| VniSpecs.SpecIsUsers | mesh/controllers/vpc.go:52-120 | in every run the UID and age of a VPC are those of its creation, its pin the last one a user wrote, and it is on its way out if and only if a user deleted it: no reconcile touches a spec |
| VniSpecs.StatusOnlyByCommit | mesh/controllers/vpc.go:52-204 | a status changes only by the commit of a reconcile of that very VPC, still as it was read, and becomes what that reconcile planned |
| Vni.ContestedPinHasOneWinner | mesh/controllers/vpc.go:83-159 | uncommitted contenders for a free pin end, in any reconcile order, with exactly one Ready on it and the others in conflict: the one created no later than any other, with the smallest UID among those of its age |
| Vni.WinnerExists | mesh/controllers/vpc.go:139-159 | among any contenders there is one created no later than every other, with the smaller UID where the ages are equal |
| Vni.Decide | mesh/controllers/vpc.go:69-118 | the listing loops and the branch on the pin compute the planned status |
| Vni.LowestFreeVni | mesh/controllers/vpc.go:166-187 | the sorted gap walk returns the least free VNI in 1000..16777215, or none when all are used |
| Vni.IsCommittedElsewhere | mesh/controllers/vpc.go:122-133 | another VPC is Ready on the VNI |
| Vni.ThePinIsLost | mesh/controllers/vpc.go:139-146 | some competitor outranks |
| Vni.ReconciledIsStartCommit | mesh/controllers/vpc.go:52-118 | a whole reconcile is its read step followed by its write step |
| MoveGate.NeverTwoPools | mesh/controllers/compiledvm.go:101-198 | in every run from any safe state of reconciles, clusterName edits and reversals, deletions, release reports and fences, a VM has at most one twin and no two pools run it, as long as nobody deletes a running twin that lacks the finalizer; where every twin had it at the start nobody can |
| MoveGate.RunningExactly | mesh/controllers/movegate.go:18-27 | in every run a VM runs in a pool if and only if it was started there, or ran from the start, and since then was neither stopped nor its pool fenced |
| MoveGate.FencedPoolsRunNothing | mesh/controllers/movegate.go:18-27 | nothing runs in a fenced pool |
| MoveGate.RetiresOnce | mesh/controllers/compiledvm.go:129-145 | a reconcile retires each pool it found once |
| MoveGate.StepSafeExactly | mesh/controllers/movegate.go:75-85 | a step from a safe state is safe if and only if it is not the delete of a running twin that lacks the finalizer |
| MoveGate.CarelessDeleteSplits | mesh/controllers/movegate.go:75-85 | the failing run: a twin compiled before the finalizer existed is deleted by hand while it runs, the gate opens, and two pools run the VM |
| MoveGate.GoneOnlyAfterRelease | mesh/controllers/compiledvmrelease.go:23-32 | a twin disappears only by the release step, once retired and reported released, or by the delete of one without the finalizer, and nothing of it runs then |
| MoveGate.StartIsExclusive | mesh/controllers/movegate.go:18-27 | when a pool starts a VM no other twin of it exists and no other pool runs it |
| MoveGate.MoveCompletes | mesh/controllers/compiledvm.go:101-198 | from every safe state and for every target pool, a reconcile under way or not, the twin live, terminating or released, there or elsewhere, the move's own steps lead to exactly one live twin in the target pool, other VMs' twins untouched |
| MoveGate.AwaitingRelease | mesh/controllers/movegate.go:32-47 | exactly the twins elsewhere or terminating, by cluster and then namespace; none exactly when every twin is a live one here |
| MoveGate.MoveRetires | mesh/controllers/movegate.go:77-85 | a reconcile that finds the twin in another pool leaves it terminating under the finalizer |

## Left out

- gRPC streams, TLS, certificates and the admin interceptors: the certificate check is the predicate `permits`.
- Kubernetes client mechanics: the API store is a map with atomic create, update and delete; a write that
  must see the object unchanged is a step with that guard.
- Parsing and printing of addresses, label selectors (`selects`), DNS-1123 names (`legal`) and which prefix
  texts lie in which (`within`): parameters.
- Pod, VM and DataVolume materializers, the CNI plugin, disk retain, adopt and reclaim, `DeriveMAC`, QoS,
  placement mirrors, conflict marking: field copying, or guarantees that rest on code not in the repository.
- `compiledTwinName`: twins are keyed by (pool, source); names of distinct sources are taken not to collide.
- Neighbour-NAT programming (`applyNat`, `syncNeighborNats`), `learnedEdge` and `forgetUnsubscribed`: they
  would only add easy members.
- A dataplane restart under the edge's load-balancer mirror, and balancers a dead agent left that no record
  names any more: the mirror never sees either.
- The wake channel and the blocking half of the queue's `take`; goroutines beyond one step at a time.
- Two controllers reconciling the same VM at once, and clients that write IPAllocation objects by hand.
- RibViews.SubscriberViewIsTable: compares nexthops, not the `external` flag, which is not fanned out when it
  alone changes.
- BusReplay.AgentHoldsTheTable: compares nexthops, not the `external` flag; record counts are unbounded, where
  the program's wrap at 32 bits. Messages alone are folded: between them a tick may release a departed local host,
  which drops this node's own VTEPs from the held route, so a key the node did not originate keeps its nexthops.
- EndToEnd.DataplaneFollowsReflector: compares nexthops and delivery VNIs, over a stretch that is not reconfigured and
  that no local guest leaves, once the dataplane has settled (BusRepair.ResyncConverges says when it does).
- GlobalViews.SinkViewIsTables: registered sinks; a session that opts out of the global feed is handed its marker only.
- BusRepair.NothingOwedIsForgotten: the agent starts beside an empty dataplane; routes that an earlier agent left
  on one that kept running are not followed.
- Agent.Bus.SyncRoutes: whether the slow sweep is due is an input, and so is what reading the interfaces answered,
  with the addresses that parse already turned into host prefixes.
- NodeSession.HandleAbsorbs: the contribution holds nexthops, blocks and records; the `external` flag is kept per
  key and not per origin, so it is no part of what one node contributes.
- NodeSession.LockstepAnnounce: only the current session's messages reach the reflector under the node's id,
  and no other node takes over one of its NAT or public keys; desired sets are covered by the node's certificate,
  and each tick goes from one set to another that settles (TickExact says exactly when that is).
- NatGateway.BlocksNeverOverlap: a list of distinct addresses; NatLayout.CollideExactly is the exact condition for
  any list.
- NatRuns.DroppedBlockRests: distinct addresses; on a list that repeats one a dropped source's ports may be given out
  under the other index.
- PortAllocator.Allocator.Assign: the block count fits 32 bits.
- Claims.ReturnedAddressWasOwned: the claim loop is a protocol of list, create and check steps, so that other
  callers act in between; removals may hit any allocation at any time. Prefixes are given parsed, and a pool
  without one of the asked family refuses before the first step.
- EdgeMirror.MirrorMatchesDataplane: a failed dataplane call is taken to have changed nothing. The NAT half of the
  global prune is left out with the rest of neighbour-NAT programming; its records count.
- Vni.ReadyVnisAreUnique: uniqueness, not stability, of automatic VNIs, which the reconcile recomputes.
- MoveGate.NeverTwoPools: a pool runs a VM only under an unreleased twin while it is not fenced, and reports
  release only when nothing of it runs: the contracts of the pool's broker and of fencing.
- FirewallAdmission.PolicyAdmittedExactly: the label selector's own validation is not modelled, and an action that is
  missing and one that is unknown are one complaint.
- Firewall shadowing by unions of rules: the compiler removes a rule only under a single covering rule.
