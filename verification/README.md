# go-wsc, verified models

A Dafny 4.11 project that models the stateful core of go-wsc, a WebSocket/SSE hub, and proves what that
core is for. `dafny verify dfyconfig.toml` checks all of it.

| file | part of the system |
|---|---|
| RerouteGuard.dfy, RerouteGuardSteps.dfy, ClusterRouting.dfy | sending a message across the cluster: the per-message guard of attempted and rejecting nodes, as events and at the granularity of its locks, and the recursion between routing and the "user not here" decision |
| Backlog.dfy | the lock-free count of frames waiting to be written, per connection and per hub |
| RefIndex.dfy, Registry.dfy, ConnectionRouting.dfy, ShardedRegistry.dfy, ObserverLookup.dfy | the connection registry, its reference-counted indexes, classified stores and counters |
| Broadcast.dfy | attribute and namespace broadcasts over the registry |
| JsonPeek.dfy | the top-level string probe on JSON text (RFC 8259) |
| FrameWriter.dfy | the WebSocket frame writer and write pump (RFC 6455) |
| Dedup.dfy, Consumer.dfy | the two-generation dedup window and at-least-once consumption |
| Outbox.dfy | message records waiting for a batched insert |
| BatchDispatch.dfy | the micro-batch dispatcher between nodes |
| ReplayGate.dfy, ReplayGateSteps.dfy | holding live deliveries back during an offline replay |
| NodeIndexCache.dfy | the short-lived cache of the node index |
| Send.dfy, Fanout.dfy | the send core's results, the fan-out executor and its counters |
| Options.dfy | a shared option type |

## How it is modelled

Objects whose methods update fields are classes, and their methods are proved against functions on
values; loops are loops. Where several goroutines work on shared state, each atomic operation (an atomic
load, add or compare-and-swap, a channel operation, a critical section) is one step of a state machine
`Apply(s, action)`, and the results hold after `Run` of any sequence of actions, that is, for every
interleaving. Beside each machine stands what the steps of one operation do with nothing between them, which
is what the operation promises. These machines work on values, so they do not show in-place update or
aliasing; the classes beside them do. The clock, the online index, gRPC, PubSub, stores, channels' readers and admission verdicts
are parameters that may take any value.

Main results, one per part:

- Rerouting ends for every adversarial online index, every answer of the nodes and any ACK timeouts between
  decisions (`RouteToCluster`), and every offline store it makes is accounted for (`CheckAndRouteToNode`); a
  point-to-point message is stored offline once for every order and repetition of rejections decided one after
  the other (`OfflineStoredExactlyOnce`), and on one guard entry no node is rerouted to twice, however the locked
  sections interleave (`SentOncePerEntry`).
- The hub's backlog counter is the sum of the pending writes up to operations between two updates
  (`BacklogConserved`); a closed connection ends at zero (`CloseSettlesEverything`); frames put are frames queued
  and frames taken (`FramesConserved`).
- Registering keeps all indexes, stores and counters exact if and only if the registration is compatible
  (`AddKeepsInv`, over runs `RunExactIff`); unregistering a superseded connection changes nothing at all
  (`ReleaseExact`).
- By the attributes of the connections alone: who is in which store (`KindsExact`) and who observes a message
  (`ObserversOf`).
- Broadcasts over an index deliver to exactly the connections a plain scan finds, each once
  (`BroadcastByAttr`, `BroadcastToNamespace`).
- Exactly when the JSON probe hits (`PeekHitsIff`), and for which keys a hit is right (`PeekSoundIff`); frames
  parse back to the payloads (`RoundTrip`).
- No reliable envelope is lost (`NothingLost`), and the dedup window is exact (`RememberedExactly`).
- Outbox, dispatcher, gate, cache and fan-out with its counters: exactly-once and conservation over every
  interleaving.

## Where the code differs from its documentation

- A gRPC worker that panics leaves its outcome at the zero value, which is `grpcOutcomeDelivered`; the
  comment at hub/cluster_dispatch.go:419-420 expects the PubSub fallback. So routing can report success
  although nobody took the message: `PanicCountsAsDelivered`; exactly when:
  `RouteToCluster`.
- Once the guard entry is gone, a late rejection starts a fresh one and can send the message to a node that
  already had it. The entry goes with the terminal offline store (`LateDuplicateResends`), with the ACK
  timeout, which deletes it whether or not anything is stored (`TimeoutResends`), and with its expiry; nothing
  else: `ResentOnlyAfterEnd`. Exactly when a decision can resend, over any run: `ResendPossibleOverRuns`.
- Two rejections in flight can both find that every node rejected and store the message twice: `StoredTwice`;
  exactly when a decision stores, and stores again: `StoresIff`, `StoresAgainIff`.
- The JSON probe compares the key with the raw name, so a key that itself spells an escape sequence can
  match a member of another name: `PeekSoundIff`.
- The dedup window remembers a key for at most the TTL, not nearly twice the TTL as broker/dedup.go:36 says:
  `WindowBound`.
- A merged status update, which the caller is told is taken care of, can be lost in three ways: between a
  flush's copy and its clean-up (`LateUpdateLost`), with a record the queue then refuses
  (`RefusedUpdateLost`), and with a failed insert (`FailedInsertLosesUpdate`). There is no other:
  `UpdateReachesRowIff`.
- A delivery that finds a user's hold-back queue full overtakes the held ones: `FullQueueOvertaken`; over
  runs exactly then: `RunsInOrderIff`.
- With a TTL of one time unit the dedup window's period is zero and its catch-up loop never ends:
  `CatchUpEndsIff`.
- A registration under an id held by another user, or a reconnect whose routing attributes changed, leaves
  indexes behind: `AddKeepsInv` says exactly which.

## Model

| member | source | states |
|---|---|---|
| RerouteGuard.RerouteTargetsDisjoint | hub/self_heal.go:228-258 | with no terminal store, ACK timeout or expiry between, no node is a reroute target twice, over any run of events |
| RerouteGuard.RerouteAvoidsRejecters | hub/self_heal.go:231-242 | reroutes avoid the local node, the empty id and every node that rejected since the last terminal store, ACK timeout or expiry |
| RerouteGuard.ResentOnlyAfterEnd | hub/self_heal.go:71-298 | over any run a node sent to, by the initial attempt or a reroute, is rerouted to again only after a terminal offline store, an ACK timeout or the expiry in between |
| RerouteGuard.KnowledgeKept | hub/self_heal.go:71-170 | only the terminal offline store, the ACK timeout and the expiry make the guard forget a node |
| RerouteGuard.KnowledgeStep | hub/self_heal.go:71-126 | after an event the guard knows a node exactly if the entry lives on and it was known, is sent to or rejects |
| RerouteGuard.KnowsExactly | hub/self_heal.go:71-170 | after any run the guard knows exactly the nodes sent to or rejecting since the entry last ended |
| RerouteGuard.P2PExactly | hub/self_heal.go:93-98 | after any run the guard is point-to-point exactly if an attempt since the entry last ended was |
| RerouteGuard.ResendPossibleOverRuns | hub/self_heal.go:206-258 | after any run a rejection can send the message to a node, for some answer of the index, exactly if it is not the rejecting node and every send to it and rejection by it lies before an end of the entry |
| RerouteGuard.TimeoutResends | messaging/ack_timer.go:83-85 | concrete run: after an ACK timeout, and without any store, a rejection sends the message to a node that has it |
| RerouteGuard.AtMostOneStore | hub/self_heal.go:286-296 | with decisions one after the other the all-rejected rule stores at most once per point-to-point attempt, whatever happens, ACK timeouts and expiry included |
| RerouteGuard.OfflineStoredExactlyOnce | hub/self_heal.go:206-298 | with no new node in the index, any order and duplication of rejections, decided one after the other, stores exactly once, at the last distinct rejection |
| RerouteGuard.StoreAtLastRejection | hub/self_heal.go:244-251 | a decision stores exactly when its rejection is the one that completes the attempted set |
| RerouteGuard.LateDuplicateResends | hub/self_heal.go:293-296 | concrete run: a rejection after the terminal deletion sends the message to a node that already rejected it |
| RerouteGuard.FreshEntryResends | hub/self_heal.go:105-126 | without an entry any other node the index lists is sent the message |
| RerouteGuard.ResendPossibleIff | hub/self_heal.go:206-258 | a decision can resend to a node of a set exactly when the entry does not know all of the set but the rejecting node |
| RerouteGuard.Candidates | hub/self_heal.go:229-242 | the candidates are exactly the index nodes that are remote, never attempted and never rejected |
| RerouteGuardSteps.DecideIsItsSteps | hub/self_heal.go:206-298 | the steps of one decision with nothing between them act on guard and stores as the atomic decision |
| RerouteGuardSteps.TimeoutForgets | messaging/ack_timer.go:83-85 | a decision after an ACK timeout acts as without an entry, whatever the entry before knew |
| RerouteGuardSteps.EntryStep | hub/self_heal.go:87-125 | a locked section adds to an entry exactly what it records and takes nothing away |
| RerouteGuardSteps.EntryExactly | hub/self_heal.go:71-258 | over every interleaving an entry holds exactly the nodes routed to and rejected on it, and is point-to-point exactly if an attempt made it so |
| RerouteGuardSteps.SentOncePerEntry | hub/self_heal.go:228-257 | over every interleaving no decision reroutes to a node already routed to or rejected on its entry |
| RerouteGuardSteps.OneEntry | hub/self_heal.go:76-82 | until something is deleted a message has one entry |
| RerouteGuardSteps.ResentOnlyAfterDeletion | hub/self_heal.go:71-298 | over every interleaving a node is routed to and later rerouted to only on two entries, and only after a deletion |
| RerouteGuardSteps.StoredTwice | hub/self_heal.go:244-296 | for any two nodes: both rejections are recorded before either decision chooses, and the message is stored twice |
| RerouteGuardSteps.StoresIff | hub/self_heal.go:244-296 | by the history of its entry a decision stores exactly if an attempt made it point-to-point, somebody was routed to on it, and all of them and every other node the index lists have rejected on it |
| RerouteGuardSteps.StoresAgainIff | hub/self_heal.go:244-296 | after a decision to store, a later decision on the same entry, with nobody routed to since, stores again exactly if the index lists nobody who has not rejected |
| RerouteGuardSteps.NoStoreOnceAbandoned | hub/self_heal.go:293-296 | an entry out of the map with no call on its way to a decision is never stored again, over any run |
| RerouteGuardSteps.StoresCounted | hub/self_heal.go:286-296 | over every interleaving the stores made and those under way are the decisions to store |
| ClusterRouting.MessageRouting.constructor | hub/cluster_dispatch.go:104-108 | a fresh routing of one message: its configuration, the ACK timeouts to come, no guard entry, nothing counted |
| ClusterRouting.MessageRouting.MarkAttempted | hub/self_heal.go:71-102 | the guard becomes that of the history extended by the attempt |
| ClusterRouting.MessageRouting.DecideStep | hub/self_heal.go:212-258 | one decision step on the guard is the specified decision; a reroute goes to at least one remote node and uses up slack for each |
| ClusterRouting.MessageRouting.LetTimeOut | messaging/ack_timer.go:83-85 | an ACK timeout that falls here empties the guard, is part of the history, and its slack was provided for |
| ClusterRouting.MessageRouting.ConsultIndex | hub/self_heal.go:217-258 | the history grows by the ACK timeout that falls here and the rejection; the decision is the specified one; a reroute uses up slack for each node |
| ClusterRouting.MessageRouting.DecideUserNotFound | hub/self_heal.go:206-298 | ends for every index; the rejection enters the history; a decision to store is exactly one offline store, a reroute dispatches to the chosen nodes and its success is that of the routing, anything else does nothing; true only if some node took the message, it was published, or a worker panicked; every offline store is accounted for |
| ClusterRouting.MessageRouting.Follow | hub/self_heal.go:260-298 | what follows each kind of decision, after the lock |
| ClusterRouting.AllRejectedIsStored | hub/self_heal.go:286-296 | a message attempted at one node that misses the user, whom the index no longer lists: one offline store |
| ClusterRouting.MarkOnEntry | hub/self_heal.go:71-102 | the code that records an attempt computes the specified guard |
| ClusterRouting.MessageRouting.RouteToCluster | hub/cluster_dispatch.go:104-274 | ends for every index, outcome and finite choice of ACK timeouts; success means taken, published, or a worker panicked; a success that nobody took if and only if something was recorded as delivered (or a reroute was itself such a success), all of it by panicked workers, with nothing published and nothing taken by a reroute; the dispatch is made, each node that misses the user gets its decision, in order, and a targeted publication is followed by the check for dead nodes; every offline store is accounted for |
| ClusterRouting.MessageRouting.Conclude | hub/cluster_dispatch.go:153-274 | the part after the dispatch: exactly when it succeeds, what was taken, when it publishes; a targeted, partly refused dispatch is stored offline |
| ClusterRouting.MessageRouting.RerouteAndFinish | hub/cluster_dispatch.go:175-274 | every missing node gets its decision; when it succeeds and publishes, at whichever time; the check for dead nodes follows |
| ClusterRouting.MessageRouting.Dispatch | hub/cluster_dispatch.go:153-172 | the dispatch is recorded with its result, which counts takers plus panicked workers as delivered |
| ClusterRouting.MessageRouting.Finish | hub/cluster_dispatch.go:189-274 | what follows the reroutes: exactly when it publishes, when it succeeds, and when it checks for dead nodes |
| ClusterRouting.MessageRouting.DispatchSplits | hub/cluster_dispatch.go:404-441 | what a dispatch counts as delivered is what nodes took plus the workers that panicked |
| ClusterRouting.PanicCountsAsDelivered | hub/cluster_dispatch.go:419-433 | one target whose worker panics, no PubSub: success, and nobody took the message |
| ClusterRouting.DeliveredSplits | hub/cluster_dispatch.go:430-433 | the same split for any targets and replies |
| ClusterRouting.MessageRouting.DecideAll | hub/cluster_dispatch.go:180-187 | the history gains one rejection per missing node, in order; true exactly if one of the decisions was, and only if taken, published or a worker panicked; every offline store is accounted for |
| ClusterRouting.MessageRouting.FallBackToPubSub | hub/cluster_dispatch.go:200-258 | exactly when it publishes, when it succeeds, and when it checks for dead nodes |
| ClusterRouting.MessageRouting.DispatchViaGrpc | hub/cluster_dispatch.go:352-444 | each list holds exactly the targets whose workers came to its answers; without gRPC all targets fall back, without a serialised message all other nodes |
| ClusterRouting.MessageRouting.CollectOutcomes | hub/cluster_dispatch.go:404-428 | the outcome slots, a panicked worker's at its zero value |
| ClusterRouting.MessageRouting.HandleDeadNodes | hub/cluster_dispatch.go:779-816 | stores offline exactly if the index lists nodes and all remote ones are dead; the check is recorded |
| ClusterRouting.AllDead | hub/cluster_dispatch.go:795-806 | the loop finds out whether a remote node is alive |
| ClusterRouting.MessageRouting.CheckAndRouteToNode | hub/distributed.go:67-145 | the remote nodes looked up are recorded as attempted and routed to, and routed is the success of that; it means taken, published or a worker panicked; offline stores over the whole recursion are the decisions of the all-rejected rule, at most one, the targeted partly refused dispatches, and the checks that find the user without a live node; at most twice the number of nodes rerouted to, plus that number for each ACK timeout |
| ClusterRouting.MessageRouting.AttemptAndRoute | hub/distributed.go:127-143 | the same for attempt and route |
| ClusterRouting.MessageRouting.OneStore | hub/self_heal.go:286-296 | after one point-to-point attempt any further history stores at most once |
| ClusterRouting.PartitionConserves | hub/cluster_dispatch.go:430-441 | delivered, refused, missing and fallback nodes together are the targets, with multiplicity |
| ClusterRouting.SortByOutcome | hub/cluster_dispatch.go:430-441 | the sorting loop computes that partition |
| ClusterRouting.Select | hub/cluster_dispatch.go:430-441 | the nodes of one outcome, no others |
| ClusterRouting.SlackOfDecision | hub/self_heal.go:206-298 | a reroute lowers the number of nodes that can still be tried, also across the one deletion of the entry |
| ClusterRouting.SlackBound | hub/self_heal.go:206-298 | that number is at most twice the number of nodes |
| ClusterRouting.RunsCompose | hub/self_heal.go:206-298 | guard and stores of a run are those of its parts |
| ClusterRouting.DecideOnEntry | hub/self_heal.go:212-296 | the code of the decision computes the specified decision |
| ClusterRouting.CollectCandidates | hub/self_heal.go:229-242 | the loop finds the candidates in index order |
| ClusterRouting.HasRejectedAll | hub/self_heal.go:243-250 | true exactly if something was attempted and all of it rejected |
| ClusterRouting.Record | hub/self_heal.go:97-101 | the loop adds the remote nodes |
| ClusterRouting.FilterRemote | hub/distributed.go:95-100 | the loop keeps the remote nodes in order |
| Backlog.BacklogConserved | models/client.go:651-715 | for every interleaving: hub counter, non-negative pending writes, and what an open connection's pending writes consist of |
| Backlog.CloseSettlesEverything | models/client.go:651-675 | a closed connection whose operations have finished has no pending writes |
| Backlog.IdleHubCountsQueues | models/client.go:651-715 | with nothing in flight the hub counter is the number of frames queued on open connections |
| Backlog.FramesConserved | models/client.go:708-714 | over every interleaving the frames put into a channel are those in it and those pumps and drains took; no channel exceeds its capacity |
| Backlog.SendAlone | models/client.go:682-715 | a send with nothing between its steps: one more frame queued and counted on both counters exactly if open with room, else no change |
| Backlog.PumpAlone | messaging/frame_writer.go:114-166 | a pump batch alone takes 64 frames or all there are and settles as many |
| Backlog.EvictAlone | connection/slow_consumer.go:181-197 | an eviction's drain alone empties the channel and settles what it held |
| Backlog.CloseAlone | models/client.go:651-654 | a close alone closes and settles everything |
| Backlog.PanicAlone | models/client.go:701-706 | a send whose select panics closes the client, settles everything and leaves nothing to its deferred settlement |
| Backlog.SettleAlone | models/client.go:660-675 | a settlement alone takes what it is asked for, or all there is, off both counters |
| Backlog.OpenStep | models/client.go:682-715 | a step on an open connection only moves a unit between pending, queue and goroutine |
| Backlog.ClosedStep | models/client.go:651-675 | a step on a closed one never leaves more pending than goroutines will settle |
| Backlog.StepKeepsInv | connection/slow_consumer.go:181-197 | every atomic step of sends, pump batches, eviction drains and closes keeps the accounts |
| Backlog.RunKeepsInv | messaging/frame_writer.go:114-166 | so does every run of such steps |
| Backlog.Connection.CompletePendingWrites | models/client.go:660-675 | with other goroutines changing the count before each swap: takes what it is asked for, or all there is, on both counters |
| Backlog.Connection.MarkClosed | models/client.go:651-654 | closes and settles everything, on both counters |
| Backlog.Connection.TrySend | models/client.go:682-715 | a frame is queued exactly if open and there is room, and counted exactly if queued, on both counters |
| RefIndex.IncrementAllCounts | connection/sharded_registry.go:443-459 | the add loops raise each key's count by its multiplicity and no other, keeping the table canonical |
| RefIndex.DecrementAllCounts | connection/sharded_registry.go:463-485 | the remove loops take exactly that away, dropping zero counts and empty buckets |
| RefIndex.IncrementCounts | connection/sharded_registry.go:593-612 | one turn of an add loop, exactly |
| RefIndex.DecrementCounts | connection/sharded_registry.go:617-642 | one turn of a remove loop, exactly |
| RefIndex.CountsDetermine | connection/sharded_registry.go:526-563 | a canonical table is determined by its counts |
| Registry.AddKeepsInv | connection/sharded_registry.go:196-247 | registering keeps reverse index, reference counts, SSE/observer/agent stores, scope index and counters exact, if and only if it is compatible |
| Registry.RemoveKeepsInv | connection/sharded_registry.go:251-298 | unregistering keeps all of them exact |
| Registry.DiscardKeepsInv | connection/sharded_registry.go:276-297 | taking a registered connection out keeps all of them exact |
| Registry.DiscardThenAdd | hub/registry.go:279-295 | taking a registration out and adding it back restores the whole state |
| Registry.ReleaseExact | hub/registry.go:279-295 | unregistering a superseded or unknown connection changes nothing; unregistering the holder takes out exactly that connection |
| Registry.ReleaseAt | connection/lifecycle.go:283-301 | what becomes of each registration when a connection is unregistered |
| Registry.StoreDetermines | connection/sharded_registry.go:71-149 | in an exact state everything derived is determined by the main store |
| Registry.IndexedReplace | connection/sharded_registry.go:188-195 | a reconnect keeps the reference counts exact if and only if it carries the same keys |
| Registry.IndexedPut | connection/sharded_registry.go:236-246 | a new registration is counted once per key |
| Registry.IndexedDrop | connection/sharded_registry.go:289-295 | a removed one is discounted once per key |
| Registry.ScopedPut | connection/sharded_registry.go:1181-1206 | the observer scope index stays exact if and only if a reconnect keeps its scope |
| Registry.ScopedDrop | connection/sharded_registry.go:1209-1231 | removing an observer keeps it exact |
| Registry.ClassifiedAdd | connection/sharded_registry.go:928-943 | a classified store stays the filtered main store if and only if a reconnect does not leave the kind, and its user count its size |
| Registry.ClassifiedRemove | connection/sharded_registry.go:946-963 | the same for removal |
| Registry.SseCountAdd | connection/sharded_registry.go:222-227 | the SSE count stays exact if and only if a reconnect keeps the connection type |
| Registry.StolenId | connection/sharded_registry.go:217-218 | an id registered by a second user breaks the reverse index |
| ConnectionRouting.CountsExact | connection/sharded_registry.go:443-642 | each namespace and attribute count is the number of matching registrations, each group count the number of listings: in the list, else the single group, else the default one |
| ConnectionRouting.KindsExact | connection/sharded_registry.go:219-235 | by the attributes alone: who is in the observer, agent and SSE stores, in every exact state of genuine connections |
| ConnectionRouting.LookupExact | connection/sharded_registry.go:649-666 | the users found under a key are those with a connection that carries it |
| ConnectionRouting.KeysCount | connection/sharded_registry.go:581-588 | which keys a connection's attributes give, with multiplicity |
| ConnectionRouting.RunExact | connection/sharded_registry.go:196-298 | after every run whose registrations are compatible with the state they meet everything is exact |
| ConnectionRouting.RunExactIff | connection/sharded_registry.go:196-298 | everything is exact at every moment of a run if and only if every registration is compatible |
| ConnectionRouting.StepExactIff | connection/sharded_registry.go:196-298 | an operation leaves the exact states if and only if it is an incompatible registration |
| ConnectionRouting.RunGenuine | connection/sharded_registry.go:196-298 | after such a run of genuine registrations every registered connection is genuine, and the observer, agent and SSE stores follow the attributes |
| ConnectionRouting.ProfilesSuffice | connection/sharded_registry.go:188-195 | one user and one attribute record per id is enough for a compatible run |
| ConnectionRouting.FitsAreCompatible | connection/sharded_registry.go:188-195 | a reconnect with its predecessor's user and attributes is compatible |
| ShardedRegistries.ShardedRegistry.constructor | connection/sharded_registry.go:157-174 | a new registry is empty |
| ShardedRegistries.ShardedRegistry.AddClient | connection/sharded_registry.go:196-247 | the client is registered and nothing else changes in the main store; the state is that of adding it; from an exact state it is exact if and only if the client is compatible |
| ShardedRegistries.ShardedRegistry.RemoveClient | connection/sharded_registry.go:251-298 | the registration is gone and nothing else changes in the main store; it is returned; an exact state stays exact |
| ShardedRegistries.ShardedRegistry.AddToUsers | connection/sharded_registry.go:202-218 | main store, user count and reverse index, and whether the id is new |
| ShardedRegistries.ShardedRegistry.RemoveFromUsers | connection/sharded_registry.go:255-274 | main store and user count, and what was there |
| ShardedRegistries.ShardedRegistry.AddToIndexes | connection/sharded_registry.go:443-459 | the loop over the keys computes the specified table |
| ShardedRegistries.ShardedRegistry.RemoveFromIndexes | connection/sharded_registry.go:463-485 | the loop over the keys computes the specified table |
| ShardedRegistries.ShardedRegistry.Unregister | hub/registry.go:279-303 | the timeout is cancelled exactly for the current holder; from an exact state, a superseded or unknown connection changes nothing and the state stays exact |
| ShardedRegistries.ShardedRegistry.CleanupHalfRegistered | connection/lifecycle.go:307-325 | the same on the registry; the connection is closed in any case |
| ObserverLookup.GetForMessage | connection/sharded_registry.go:1234-1296 | exactly the open observers whose scope covers the message, each once |
| ObserverLookup.ObserversOf | connection/sharded_registry.go:1181-1296 | by the attributes alone: a message gets exactly the open observers of everything, of its namespace, or of one of its groups in it, each once |
| ObserverLookup.Collect | connection/sharded_registry.go:1255-1263 | the loop adds a bucket's open clients that were not seen |
| ObserverLookup.Visit | connection/sharded_registry.go:1265-1293 | visiting a scope's bucket extends the audience by that scope |
| ObserverLookup.ScopeIndexFit | connection/sharded_registry.go:1146-1151 | in every exact state the scope index is what the lookup needs |
| Broadcast.BroadcastByAttr | messaging/broadcast.go:1058-1080 | whichever path is taken, the connections tried are, by their attributes, exactly the open ones of the application with the attribute, in the namespace or, if that is empty, in any; each once |
| Broadcast.BroadcastToNamespace | messaging/broadcast.go:1012-1035 | the same for namespaces; nothing for the empty one |
| Broadcast.FullScan | messaging/broadcast.go:738-749 | main store without SSE, then SSE store, is every matching connection once |
| Broadcast.ScanOrPick | messaging/broadcast.go:1067-1079 | empty hit, ratio fallback and picked users give the same targets |
| Broadcast.ScanOrFanOut | messaging/broadcast.go:1022-1034 | so do the paths of a namespace broadcast |
| Broadcast.DeliverInChunks | messaging/broadcast.go:910-940 | slicing the users among workers gives what the serial loop gives |
| Broadcast.DeliverToList | messaging/broadcast.go:762-773 | the serial loop tries exactly the listed users' matching connections, each once |
| Broadcast.DeliverToUser | messaging/broadcast.go:960-988 | one user's matching connections, each once |
| Broadcast.IndexSuffices | messaging/broadcast.go:1039-1053 | when the condition implies the key, the users under the key have all targets |
| Broadcast.UsersUnder | connection/sharded_registry.go:694-712 | the users under a key, each once |
| Broadcast.SseStoreMatching | messaging/broadcast.go:745-749 | the SSE store has exactly the matching SSE connections |
| JsonPeek.JsonPeekTopLevelString | messaging/json_peek.go:33-86 | the scanning loops compute the specified probe, never out of range, on any bytes |
| JsonPeek.ScanJsonString | messaging/json_peek.go:119-134 | finds the string's extent as specified |
| JsonPeek.ReadStringValueAfterKey | messaging/json_peek.go:89-115 | reads the value after the key as specified |
| JsonPeek.PeekAgreesWithGrammar | messaging/json_peek.go:33-134 | on every RFC 8259 object text the probe is a walk over the top-level members |
| JsonPeek.PeekSound | messaging/json_peek.go:27-32 | a hit is the string value of the member whose decoded name is the key |
| JsonPeek.PeekSoundIff | messaging/json_peek.go:69-74 | sound for a key exactly if the key has no backslash or is no string body |
| JsonPeek.PeekHitsIff | messaging/json_peek.go:33-134 | on every object text: a hit exactly if some member has the key as its raw name and a string without escapes, and no member before it has the key as its name or its value |
| JsonPeek.ValuePassed | messaging/json_peek.go:49-66 | a nested value is passed over without a hit |
| JsonPeek.BodyScanned | messaging/json_peek.go:124-132 | a string body with any escapes is scanned to its closing quote |
| JsonPeek.DecodeShrinks | messaging/json_peek.go:107-113 | escapes are longer than what they stand for |
| JsonPeek.Spell | messaging/json_peek.go:33-34 | every text is the text of some bytes |
| FrameWriter.RoundTrip | messaging/frame_writer.go:83-107 | parsing what is written by section 5.2 of RFC 6455 gives the payloads, in order, as final unmasked text frames with minimal lengths |
| FrameWriter.Examples | messaging/frame_writer.go:46-61 | the frames of three lengths, byte by byte |
| FrameWriter.FrameReadsBack | messaging/frame_writer.go:46-61 | one frame reads back and leaves what follows |
| FrameWriter.ValueOfBigEndian | messaging/frame_writer.go:56-58 | extended lengths read back |
| FrameWriter.AppendFrameHeader | messaging/frame_writer.go:46-61 | appends the header of a length |
| FrameWriter.WriteFramesBatch | messaging/frame_writer.go:83-107 | headers and payloads reach the connection in order |
| FrameWriter.PutUint64 | messaging/frame_writer.go:56-58 | eight bytes, most significant first |
| FrameWriter.Pump.WriteBatch | messaging/frame_writer.go:114-166 | first in, first out: accepted is written then queued; one to 64 frames; stops early only on an empty channel |
| FrameWriter.Pump.Accept | models/client.go:708-714 | a frame goes to the end of the queue |
| FrameWriter.PumpDelivers | messaging/frame_writer.go:114-166 | what parses off a pump's wire is a prefix of what it accepted, all of it once its queue is empty |
| Dedup.RememberedExactly | broker/dedup.go:71-94 | between two acceptances a key is refused exactly before the end of the generation after the accepting one |
| Dedup.WindowBound | broker/dedup.go:47-94 | after an acceptance every call is refused for half the TTL, and the first one after all of it is accepted |
| Dedup.RefusedWithinPeriod | broker/dedup.go:47-94 | after an acceptance every call for the key within one period is refused |
| Dedup.FirstSight | broker/dedup.go:86-93 | a key is accepted at its first call |
| Dedup.CatchUpExact | broker/dedup.go:74-79 | catching up over any number of idle generations, in closed form |
| Dedup.CatchUpEndsIff | broker/dedup.go:74-79 | the catch-up loop ends if and only if the period is positive or the clock is behind the window |
| Dedup.AfterLastSwap | broker/dedup.go:74-79 | the window stands at the generation of the last call |
| Dedup.Start | broker/dedup.go:74-79 | the generation that contains a time |
| Dedup.DedupWindow.constructor | broker/dedup.go:47-64 | defaults, half the TTL as period, empty shards; usable unless the TTL is one time unit |
| Dedup.DedupWindow.Seen | broker/dedup.go:71-94 | the shards together behave as one window |
| Dedup.DedupWindow.Unmark | broker/dedup.go:100-106 | forgets the key in both generations |
| Dedup.DedupWindow.SwapGenerations | broker/dedup.go:109-116 | the loop over the shards swaps the one window |
| Dedup.Fnv1a | broker/dedup.go:119-125 | the loop computes FNV-1a |
| Dedup.FnvVectors | broker/dedup.go:119-125 | the published test vectors |
| Dedup.FnvShard | broker/dedup.go:119-126 | the shard is the hash modulo the number of shards |
| Dedup.UnionUpdate | broker/dedup.go:81-93 | a change to a key's own shard is a change to the one window |
| Consumer.NothingLost | broker/consumer.go:75-121 | for every interleaving: once a copy got past the window, a copy was delivered, is on its way or was handed back |
| Consumer.AllAcknowledgedMeansDelivered | broker/consumer.go:75-121 | once every copy is acknowledged each reliable key was delivered by one |
| Consumer.StepKeepsInv | broker/consumer.go:75-121 | a mark always has a copy behind it, a handled key a copy that was or may yet be delivered |
| Consumer.Handle | broker/consumer.go:75-121 | when a copy is acknowledged, skipped or handed back, and what the window then remembers: after a failure, as if never seen |
| Consumer.HandleIsItsSteps | broker/consumer.go:75-121 | the steps of one copy with nothing between them are what the handler does |
| Consumer.DeliveryStartsIff | broker/consumer.go:89-103 | over every interleaving a copy starts its delivery exactly when it enters, valid, and is express or of a key not remembered then |
| Consumer.DuplicateForGood | broker/consumer.go:94-100 | a copy entering while its key is remembered is acknowledged as a duplicate for good |
| Consumer.RedeliveredIsDelivered | broker/consumer.go:111-120 | a copy handed back and redelivered is delivered unless its key is remembered meanwhile |
| Outbox.PendingOnlyWaiting | batcher/message_record_outbox.go:82-103 | pending holds only records being submitted, queued or flushed |
| Outbox.IdleMeansEmpty | batcher/message_record_outbox.go:155-171 | at rest pending is empty, however many inserts failed |
| Outbox.RowsExact | batcher/message_record_outbox.go:136-153 | a row carries the last status merged before the copy, and a record has one row at most |
| Outbox.UpdateReachesRowIff | batcher/message_record_outbox.go:82-195 | over any run, a gone record's row shows a merged update or a later one if and only if the record was inserted and the update did not fall between copy and clean-up |
| Outbox.RunFates | batcher/message_record_outbox.go:136-195 | a record has a row exactly when it was inserted |
| Outbox.MergedEvent | batcher/message_record_outbox.go:110-123 | a merged update stays in the record's history to the end |
| Outbox.RefusedUpdateLost | batcher/message_record_outbox.go:91-102 | concrete run: a merged update is lost with a record the queue refuses |
| Outbox.FailedInsertLosesUpdate | batcher/message_record_outbox.go:155-171 | concrete run: a merged update is lost with a failed insert |
| Outbox.GoneForever | batcher/message_record_outbox.go:175-188 | no update reaches a record after its clean-up |
| Outbox.LateUpdateLost | batcher/message_record_outbox.go:141-153 | concrete run: the row says sending, the update was taken, and no callback names the key |
| Outbox.CallbackExact | batcher/message_record_outbox.go:180-187 | the flush callback names exactly the keys of the records still sending at the clean-up |
| Outbox.StepKeepsInv | batcher/message_record_outbox.go:82-195 | every step keeps phases, pending, histories and rows consistent |
| Outbox.ForgetExact | batcher/message_record_outbox.go:180-184 | clean-up removes exactly the entries for the batch's own records |
| Outbox.MessageRecordOutbox.Submit | batcher/message_record_outbox.go:86-89 | the record becomes the pending one of its key |
| Outbox.MessageRecordOutbox.Abandon | batcher/message_record_outbox.go:91-97 | a refused record leaves pending, a newer one stays |
| Outbox.MessageRecordOutbox.UpdateStatusIfPending | batcher/message_record_outbox.go:110-123 | merged exactly if pending, and then the record has the status |
| Outbox.MessageRecordOutbox.Snapshot | batcher/message_record_outbox.go:147-153 | the loop copies the batch's statuses |
| Outbox.MessageRecordOutbox.CleanUp | batcher/message_record_outbox.go:175-194 | the loop removes the batch from pending, names the records still sending and calls back with them |
| BatchDispatch.ExactlyOnePosition | cluster/grpc_batch.go:108-189 | for every interleaving an accepted item is at one position of one buffer or batch of its node |
| BatchDispatch.NoBufferForgotten | cluster/grpc_batch.go:128-140 | a non-empty buffer has an armed timer or a flush under way, a full one the latter |
| BatchDispatch.NoCallerStranded | cluster/grpc_batch.go:194-217 | once timers, flushes and replies are through every caller has the fallback if its batch's reply failed or is too short, else the classification of the result at its own index |
| BatchDispatch.ServedAfterFlush | cluster/grpc_batch.go:128-217 | a buffered item is one timer, one flush and one reply away from the result at its own index |
| BatchDispatch.AnswerIsKept | cluster/grpc_batch.go:194-217 | over any run whoever is at an index when its batch is answered has that result for good |
| BatchDispatch.ResolvedOnce | cluster/grpc_batch.go:210-216 | a result is given once and never changes |
| BatchDispatch.ClosedStaysShut | cluster/grpc_batch.go:150-168 | after Close nothing is accepted |
| BatchDispatch.Classify | cluster/grpc_batch.go:295-327 | exactly when an answer is a delivery, a miss, a refusal or the fallback; a clear answer about the user comes before the error text |
| BatchDispatch.StepKeepsInv | cluster/grpc_batch.go:108-217 | every step of submits, timers, flushes, Close and replies keeps the invariants |
| BatchDispatch.ResolveOwn | cluster/grpc_batch.go:194-217 | an item of a batch gets the classification of the result at its own index, or the fallback |
| BatchDispatch.ResolveOther | cluster/grpc_batch.go:194-217 | no other channel is touched |
| BatchDispatch.SendAndResolve | cluster/grpc_batch.go:194-217 | the loop gives each item the result at its own index, or the fallback |
| BatchDispatch.Dispatcher.Submit | cluster/grpc_batch.go:118-136 | the locked part is the submit step: accepted unless closed, at the end of its node's buffer, flushed when full |
| BatchDispatch.Dispatcher.Flush | cluster/grpc_batch.go:172-188 | the locked part is the flush step: the buffer becomes a batch |
| BatchDispatch.Dispatcher.Close | cluster/grpc_batch.go:150-168 | the locked part is the close step: every buffer is then flushed |
| ReplayGate.RunsInOrder | messaging/replay_gate.go:51-122 | with atomic operations, until a queue fills up every user's deliveries run in arrival order |
| ReplayGate.RunsInOrderIff | messaging/replay_gate.go:51-122 | over any run the order holds at every moment if and only if no delivery finds a full queue |
| ReplayGate.FullQueueOvertaken | messaging/replay_gate.go:79-91 | concrete run: after 1024 held deliveries the next one runs first |
| ReplayGate.StepOrderedIff | messaging/replay_gate.go:51-122 | an operation breaks the order if and only if it is a delivery that finds a full queue |
| ReplayGate.HoldKeepsOrderIff | messaging/replay_gate.go:63-92 | a hold keeps the order if and only if the user's queue is not full |
| ReplayGate.EndKeepsOrder | messaging/replay_gate.go:108-122 | ending a replay runs the held ones in order |
| ReplayGate.HeldDuringReplay | messaging/replay_gate.go:51-145 | from a replay's start to its stop everything given for the user is held, and the stop runs it in order |
| ReplayGate.Gatekeeper.Begin | messaging/replay_gate.go:51-59 | opens a replay once |
| ReplayGate.Gatekeeper.Hold | messaging/replay_gate.go:63-92 | held exactly if the user is in replay and there is room, else run |
| ReplayGate.Gatekeeper.End | messaging/replay_gate.go:108-122 | runs the queue and closes the replay |
| ReplayGate.Gatekeeper.TryBeginUserReplay | messaging/replay_gate.go:128-136 | granted exactly if none is in flight |
| ReplayGate.Gatekeeper.EndUserReplay | messaging/replay_gate.go:140-145 | gives the right back and ends the replay |
| ReplayGateSteps.NeverTwice | messaging/replay_gate.go:51-122 | at lock granularity nothing runs twice, the counter counts the users in replay, no queue exceeds 1024 |
| ReplayGateSteps.AllHaveRun | messaging/replay_gate.go:51-122 | once nothing is under way everything given to the gate has run |
| ReplayGateSteps.HeldRunInOrder | messaging/replay_gate.go:108-122 | what one replay held runs in the order it was held |
| ReplayGateSteps.HoldIsItsSteps | messaging/replay_gate.go:63-92 | the steps of hold alone: held exactly if the user is in replay and there is room, else run at once |
| ReplayGateSteps.EndIsItsSteps | messaging/replay_gate.go:108-122 | the end of a replay and its runs take the queue and run it in order |
| ReplayGateSteps.BeginOpens | messaging/replay_gate.go:51-59 | a replay that begins is open, empty and counted |
| ReplayGateSteps.StepKeepsInv | messaging/replay_gate.go:51-122 | every step of begin, hold, end and the runs keeps the invariants |
| NodeIndexCache.SizeConserved | hub/node_index_cache.go:64-115 | for every interleaving the counter differs from the entry count by what threads still owe, and the map holds each key's last store |
| NodeIndexCache.QuietSizeExact | hub/node_index_cache.go:64-115 | with no operation under way it is the entry count |
| NodeIndexCache.HitIsLatest | hub/node_index_cache.go:64-77 | a hit is the last store for its key and not past its time |
| NodeIndexCache.StoredIsLoaded | hub/node_index_cache.go:64-102 | what was stored is what a load finds, exactly for its lifetime |
| NodeIndexCache.StoreAlone | hub/node_index_cache.go:82-94 | a store alone swaps the entry in and counts a new key |
| NodeIndexCache.LoadAlone | hub/node_index_cache.go:64-77 | a load alone hits exactly if the key is there and not past its time; past it the entry goes and is discounted |
| NodeIndexCache.VictimSwept | hub/node_index_cache.go:106-115 | a sweep takes out exactly what is past its time |
| NodeIndexCache.RevertAlone | hub/node_index_cache.go:95-101 | after its sweep a store takes its own entry out exactly if there are still too many |
| NodeIndexCache.NextConserves | hub/node_index_cache.go:82-115 | each atomic operation owes exactly the difference it makes |
| NodeIndexCache.Cache.Load | hub/node_index_cache.go:64-77 | hit exactly if present and not expired; then the last store, no older than the lifetime; expired entries go |
| NodeIndexCache.Cache.Store | hub/node_index_cache.go:82-102 | stored if the key is there or there is room; else exactly the expired entries are swept, and the new one is left out only if the cache is still full or it expired |
| NodeIndexCache.Cache.Insert | hub/node_index_cache.go:91-101 | counts a new key, within the capacity |
| NodeIndexCache.Cache.MakeRoom | hub/node_index_cache.go:95-101 | sweep, and revert if that frees no room |
| NodeIndexCache.Cache.EvictExpired | hub/node_index_cache.go:106-115 | keeps exactly the entries that have not expired |
| Send.SendResult.SendToUser | messaging/send.go:90-192 | no error exactly if routed, held or accepted, else which error; what became of the message, exactly |
| Send.SendResult.ExecuteSendAttempt | messaging/send.go:473-496 | the attempt is recorded with its outcome |
| Send.SendResult.DeliverOnline | messaging/send.go:431-454 | exactly how many attempts: after each but the last it failed and may be retried, and the last succeeded or may not; the error is that of the last |
| Send.SendResult.DeliverOrStore | messaging/send.go:374-398 | stored exactly if none of the allowed attempts reaches anybody and storing is possible; success exactly if one does or it is stored |
| Send.SendResult.LastDecides | messaging/send.go:431-454 | the last attempt made succeeds exactly if one of the allowed ones would |
| Send.SendResult.SendCore | messaging/send.go:253-424 | at every exit success exactly without error; a reliable success was routed, held, accepted or stored; when each happens, by the allowed attempts |
| Fanout.EachIndexOnce | messaging/fanout.go:53-85 | for every interleaving of the workers each index runs exactly once |
| Fanout.OneWorkerExits | messaging/fanout.go:61-84 | one worker alone runs the members in order and exits |
| Fanout.NeverTwice | messaging/fanout.go:53-85 | at any moment no index has run twice or out of range |
| Fanout.RunKeepsInv | messaging/fanout.go:70-84 | every drawn index is with one worker or has run, and the counters count |
| Fanout.CountersConserved | messaging/broadcast.go:265-287 | at every moment of every interleaving online and offline equal sent, stored and failed plus the workers between their two adds |
| Fanout.CountersAtExit | messaging/broadcast.go:265-297 | when the workers have exited each counter is the number of members of its kind, and both sums are the members that did not panic |
| Fanout.StepKeepsInv | messaging/broadcast.go:265-287 | every draw, return and add keeps places and counters consistent |
| Fanout.SumsAgree | messaging/broadcast.go:291-297 | exact counters add up |
| Fanout.RunSerially | messaging/fanout.go:61-67 | with one worker, a loop over the members: each counter counts its own kind, and both sums are the members that did not panic |
| Fanout.CountMembers | messaging/fanout.go:295-322 | success, offline and failed add up to all members, and the id lists are right |

## Left out

- Times of guard entries: in RerouteGuard the expiry is an event that may come at any time; in RerouteGuardSteps entries do not expire, and the sweep that takes an expired entry out and may put it back is not a step.
- The offline store the ACK timeout itself makes when it can claim the record (messaging/ack_timer.go:87-130), after it has deleted the guard entry.
- MessageRouting: within one routing recursion decisions are atomic, an ACK timeout falls right before a decision (nothing else reads the guard), and there are finitely many.
- FallBackToPubSub: a targeted publication that fails for some nodes returns an error although others got the message (hub/cluster_dispatch.go:692-726); `took` counts it as none, and a publication nobody listens to as one, so "nobody took it" means no gRPC taker and no publication without error.
- An empty message id, for which the guard records nothing; routing operations other than sending to one user; the asynchronous probe of nodes nobody listens on.
- Guard entries of different messages are independent, so one message is modelled.
- `SetPendingCounter`: the hub's counter is taken to be bound before a connection is visible, as the code asks.
- `ScanOnce` of the slow-consumer scanner, apart from the drain and settlement of an eviction.
- Sharding of the registry's maps: a shard lock makes each map operation atomic. Groups, namespaces and attributes share one table whose keys name their dimension, and composite keys are tuples, so ids with colons do not collide.
- Concurrent registrations of the same id: AddClient and RemoveClient are atomic here, while the code updates the stores one after the other.
- Clear, which does not reset the observer and agent user counts.
- Deferred re-delivery of a broadcast that was not admitted, deliveries held by the replay gate during a broadcast, and the count of accepted deliveries. Chunks are walked one after the other: the deliveries of any interleaving of the workers are the same ones.
- ShardOf: the number of shards is taken to fit 32 bits, as the code converts it to uint32.
- The first frame of a batch goes through the WebSocket library; the model writes it with the same encoder. Write errors, write deadlines and control frames are not modelled.
- Pump.WriteBatch: the exit for a closed channel (messaging/frame_writer.go:131-135), which would drop the frames already collected; the data channel is never closed (connection/lifecycle.go:327).
- A caller of Submit that gives up waiting; its item is still sent and resolved.
- The batch processor behind the outbox: its queue accepts or refuses, and it runs one flush at a time on a prefix of the queue.
- EndUserReplay and TryBeginUserReplay are atomic; order is claimed only for atomic operations.
- HitIsLatest: the time of a hit is taken at the read of the map.
- DeliverOnline: the retry helper is not part of the repository; it is taken to try again while the error is retryable, attempts remain and it is not cancelled, and to return the last error.
- Retry back-off, the time wheel, logging, metrics, tracing, serialisation, object pools; the client SDK; multi-login policy, group management, VIP, workload and other batchers: easy members or calls to stores.
