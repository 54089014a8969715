# Verified models of the Roomful core

Roomful lets browser clients share rooms. This project models the parts of it where state is spread over several
places or several moments, and proves what they promise. The relay packages keep room membership, in Redis, in one
process or in one edge room; the core package queues work while a transport is away; the protocol carries signals
between versions and encodings; the devtools, the framework adapters and the cloud API each have a small algorithm
whose correctness is not obvious from reading it.

| files | model |
|---|---|
| `RelayTypes`, `RedisStore`, `LocalCoordinator`, `RelayCoordinator` | the Lua scripts and `syncRoom`, the single-process coordinator, the Redis coordinator, each as a class over the fields it updates |
| `RelaySystem`, `RelaySafety`, `RelayHistory`, `RelayConverse` | any number of relay instances over one Redis, one event per indivisible step, with outages, lost replies and interrupted recoveries; what the events of a run say about its outcome; and what happens when a timing assumption is broken |
| `EdgeRoom`, `EdgeRuns`, `EdgeHistory` | one edge room with its two indexes, every interleaving of its handlers with pending authorisations, and what the events say about who is there and what each connection is told |
| `OfflineQueue`, `OfflineRuns` | the offline queue and the offline window of a room, and every order of emits, drops, reconnects and disconnects |
| `Values`, `Schemas`, `WireSchemas`, `Protocol` | the wire protocol: value trees, the validator, both envelope versions, both carriers, the raw-bytes shortcut |
| `Diff`, `DiffPatch` | the devtools diff and its inverse as a patch |
| `Serializer` | the devtools serializer over heaps that may be cyclic |
| `StructuredValues`, `SnapshotCaches`, `PresenceCache` | structural equality, and the caches that keep references for as long as values stay equal |
| `AnimatedPresence` | merging a peer list into the animated one |
| `Calendar`, `Metering` | UTC calendar arithmetic and usage aggregation |
| `ApiKeys` | base 62 secrets and their prefixes |
| `StableSort`, `Text` | sorting and splitting as ECMA-262 defines them |

Code that updates fields or arrays is a class or a loop, proved equal to a function or predicate on values; the
lemmas about whole runs are about those same functions and predicates. A name with a prime is a state afterwards.

`dafny verify dfyconfig.toml` checks everything.

## What turned out to hold, and what did not

- **One holder per peer.** Every peer an instance believes it holds is in Redis under that instance's id, so no two
  instances hold the same peer, under two assumptions about timing that the code does not enforce: when readiness is
  lost, joins and leaves on their way are for rooms the instance holds nobody in, and a join has its room to itself;
  and no leave empties a room after a recovery has copied the pending rooms. They are exact. A step respects them if and
  only if no continuation that respects them ever has two holders (`RelayConverse.TameExactly`), provided that a peer id is
  unused, rooms have space and two more instances may start; and runs from nothing reach steps that do not
  (`RelayConverse.BothAreNeeded`).
- **Recovery.** `syncRoom` reads and then writes, with other instances in between; still it adds, overwrites and
  removes no entry of another instance, and a recovery without leaves of its own ends with exactly its own peers. A room
  the instance is in throughout a recovery ends with the capacity key that was found, or else with the instance's own.
- **Ghost entries.** An entry is left without its peer by a lost join reply, a lost leave and a leave that Redis is not
  told of, and by nothing else; a sync of its own instance is all that deletes it. So an instance that lost no reply
  and let nobody leave during a recovery has, whenever it is ready, no such entry.
- **Scripts.** The Lua scripts and the single-process coordinator answer every run of requests alike if `maxPeers` is
  at least 1, as the schema enforces; with 0 they differ, and the Redis room stays closed for everybody.
- **Edge room.** In every run, a client's control messages add up to the room's membership if and only if no other
  peer has its connection. A join is admitted without another look at its connection. Every peer has an open connection
  that leads to it if and only if no admission found its connection joined already or closed; otherwise a peer stays in
  the room for good. Two joins waiting on one connection bring that about, and so does a single one whose connection
  closes while it waits. Whoever is there is there over the connection and with the capabilities of its own join, which
  decide the frames it gets.
- **Offline events.** `packages/core/src/internal/offline-queue.ts:97-121` drops the oldest event when 100 are queued.
  So events are sent or queued exactly once and in order if and only if no emit found 100 queued events; otherwise
  the number lost is the number of such emits, and 101 events emitted offline lose the first. The key that guards
  against sending an event twice never has to. State changes are never lost: those replayed and then those queued are
  all that had to wait, in order, overflow or not.
- **Wire protocol.** Round trips are exact on MessagePack; on JSON they are exact if and only if the payload has no
  byte strings and no non-finite numbers. The raw-bytes shortcut differs from printing anew for old envelopes without
  a timestamp, which each reader dates by its own clock.
- **Diff.** Its lines patch the earlier record into the later one, up to the order of keys, if and only if no place where
  both are records has a key every object inherits, such as `constructor`, that the earlier one had and the later one
  has not, nor a record under `__proto__` that only the later one has. `previous[key]` and `next[key]` do not ask whether the
  key is the record's own, so a removed `constructor` is reported as changed into a function. A difference between
  roots that are not both records never shows, because lines without a path are filtered out.
- **Serializer.** `[Circular]` marks an object met before, which need not mean a cycle: it appears if and only if
  unfolding the heap within the limits meets some plain object twice, as when two keys share one.
- **Usage.** Quantities are conserved, and an event lies in the window it is counted in if and only if it is not from
  the years 0 to 99, which `Date.UTC` takes for 1900 to 1999.

## Model

| member | source | states |
|---|---|---|
| RedisStore.JoinScriptEntries | packages/relay/src/relay-redis-store.ts:16-43 | The join script writes at most one entry, only when it accepts, and only where there was none; every other entry of every room is untouched |
| RedisStore.LeaveScriptEntries | packages/relay/src/relay-redis-store.ts:45-58 | The leave script removes the one entry, and deleting the keys of an emptied room removes no other |
| RedisStore.RelayRedisStore.SyncRoom | packages/relay/src/relay-redis-store.ts:429-465 | Uninterrupted, a sync leaves the instance's entries in the room equal to the request, every other entry as it was, and installs a capacity only where there was none and there are peers |
| LocalCoordinator.LocalRelayRoomCoordinator.Join | packages/relay/src/relay-local-coordinator.ts:41-74 | Duplicate before full before accepted; the first joiner's `maxPeers` becomes the capacity; the reply lists who was there |
| LocalCoordinator.LocalRelayRoomCoordinator.Leave | packages/relay/src/relay-local-coordinator.ts:76-89 | One peer leaves; an emptied room is forgotten with its capacity |
| ScriptRefinement.StepMatches | packages/relay/src/relay-redis-store.ts:16-58 | From states that agree on peers and capacity, any admissible operation gives the same reply and states that agree again |
| ScriptRefinement.RunMatches | packages/relay/src/relay-local-coordinator.ts:41-89 | For every sequence of joins (`maxPeers` absent or at least 1) and leaves, scripts and local coordinator give the same replies, with the same sets of existing peers, and end in matching states |
| ScriptRefinement.RunCapacity | packages/relay/src/relay-redis-store.ts:27-37 | After every such run the capacity is the one asked for by whoever joined the room when it was last empty, and the room is no larger |
| ScriptRefinement.MembersExactly | packages/relay/src/relay-local-coordinator.ts:41-89 | After every run somebody is in a room exactly if its last accepted join there has not been followed by its leave, with what it announced in that join; a room without anybody is gone |
| ScriptRefinement.JoinAnsweredExactly | packages/relay/src/relay-local-coordinator.ts:47-73 | After any run a join is answered by the history alone: a member is a duplicate, a newcomer is refused if the members are as many as the first of them allowed, and anybody else is told exactly who the members are and what each announced |
| ScriptRefinement.ZeroCapacityBricksRedisRoom | packages/relay/src/relay-redis-store.ts:30-37 | With `maxPeers` 0 the refused join leaves its capacity key behind, so the script refuses the next joiner while the local coordinator admits it |
| RelayCoordinator.RedisRelayRoomCoordinator.Join | packages/relay/src/relay-redis-coordinator.ts:148-177 | Refused without touching Redis when not ready; otherwise the script's reply, mirrored locally exactly when it accepts, with the announced capabilities; a room that was there keeps its capacity and a new one has the joiner's; no other room changes |
| RelayCoordinator.RedisRelayRoomCoordinator.Leave | packages/relay/src/relay-redis-coordinator.ts:179-190 | The mirror loses the peer; when ready Redis does too and no repair is owed, when not ready an emptied room is owed a repair and Redis is untouched |
| RelayCoordinator.RedisRelayRoomCoordinator.RemoveLocalPeer | packages/relay/src/relay-redis-coordinator.ts:271-285 | The mirror loses the peer and, when it was the last, the room; the result says whether the room is still there |
| RelayCoordinator.RedisRelayRoomCoordinator.Publish | packages/relay/src/relay-redis-coordinator.ts:192-205 | Sent when ready; otherwise queued if it is a `peer-left` and dropped if not |
| RelayCoordinator.RedisRelayRoomCoordinator.RecoverFromReconnect | packages/relay/src/relay-redis-coordinator.ts:216-269 | Alone, and given that no owed room is a local one and somebody is in each local room, which every run keeps, a recovery leaves Redis attributing to the instance exactly its peers in every local or owed room, changes no other entry, leaves each room's capacity key as it was or, where a local room had none, installs the local capacity if there is one, and publishes the queued messages in order, once |
| RelayCoordinator.SyncedRepairs | packages/relay/src/relay-redis-coordinator.ts:238-254 | A sync makes one more room exact, keeps the finished ones exact, and touches nothing else |
| RelayCoordinator.SyncedCapacity | packages/relay/src/relay-redis-coordinator.ts:238-245 | The sync of one more local room leaves the capacity keys found, gives a room without one its local capacity, and touches no other room's key |
| RelaySafety.StepKeepsOthers | packages/relay/src/relay-redis-store.ts:429-465 | No single step of an instance, each command of a sync included, adds, overwrites or removes an entry of another instance |
| RelaySafety.StepInv | packages/relay/src/relay-redis-coordinator.ts:148-285 | Every step that respects the timing assumptions keeps, for every instance: held peers and unanswered joins are in Redis as its own, debts are for rooms it is not in and none are open while ready, what is on its way while it is not ready is alone in its room, a running sync can only write what it owns and delete what it does not hold |
| RelaySafety.RunInv | packages/relay/src/relay-redis-coordinator.ts:148-269 | The invariant holds after every run of any number of instances that respects them |
| RelaySafety.HeldPeersAreOwned | packages/relay/src/relay-redis-coordinator.ts:148-285 | In every such state each locally held peer is in Redis under its instance's id, and no peer is held in a room by two instances |
| RelaySafety.StepsKeepOthers | packages/relay/src/relay-redis-coordinator.ts:233-254 | The same of every step of every run: entries of others, before or after, are the same before and after |
| RelaySafety.RecoveryIsExact | packages/relay/src/relay-redis-coordinator.ts:216-269 | A recovery interleaved with anything, late replies to the instance included, but no leave of its own, ends with Redis attributing to the instance exactly the peers it holds in every room it was in or owed when it began, with no debt left |
| RelaySafety.QuietRecoveryEndsExact | packages/relay/src/relay-redis-coordinator.ts:264-268 | The last step of such a recovery, from any state that satisfies the invariant |
| RelaySafety.PeerLeftConserved | packages/relay/src/relay-redis-coordinator.ts:192-269 | In every run each `peer-left` queued while not ready is still queued, in its order, or has been published at a position of its own; the final splice removes only published ones |
| RelayHistory.HeldExactly | packages/relay/src/relay-redis-coordinator.ts:148-190 | In every run an instance holds a peer if and only if the last it did about the peer was to take in its accepted join and not to let it leave |
| RelayHistory.PublishExactly | packages/relay/src/relay-redis-coordinator.ts:192-205 | A message is published at once exactly when the instance is ready, and queued behind the others exactly when it is not and the message is a `peer-left` |
| RelayHistory.CapacityStays | packages/relay/src/relay-redis-store.ts:16-58 | While an instance that is not joining anybody itself holds somebody in a room, no step of any instance but a capacity command of a sync changes the room's capacity key |
| RelayHistory.RecoveryRestoresCapacity | packages/relay/src/relay-redis-coordinator.ts:238-245 | At the end of a recovery interleaved with anything, each room the instance was in throughout has the capacity key the recovery found, or if there was none the instance's own capacity, open if it has none; if another instance wrote the key meanwhile, a key is there at any rate if either was |
| RelayHistory.OrphansExactly | packages/relay/src/relay-redis-coordinator.ts:148-190 | An entry becomes one that its instance neither holds nor has on its way exactly by a lost join reply, a lost leave or a leave while not ready, and stops being one exactly when a sync of its own instance deletes it |
| RelayHistory.NoGhostEntries | packages/relay/src/relay-redis-coordinator.ts:148-269 | In every run of an instance that lost no reply and let nobody leave during a recovery, whenever it is ready Redis has an entry of its own for a peer if and only if it holds the peer or has it on its way in or out |
| RelayConverse.TameExactly | packages/relay/src/relay-redis-coordinator.ts:148-285 | From any state that satisfies the invariant, a step respects the timing assumptions if and only if no continuation of it whose steps respect them makes two instances hold one peer, given an unused peer id, space in the rooms and two instances not started yet |
| RelayConverse.OutageHarms | packages/relay/src/relay-redis-coordinator.ts:83-92 | From any such state an outage that finds a join or leave on its way in a room the instance is in, or in a room another join is on its way to, leads on to two holders: the recovery deletes the peer, another instance takes it, and the late reply or script does the rest |
| RelayConverse.LeaveHarms | packages/relay/src/relay-redis-coordinator.ts:179-190 | From any such state a leave that empties a room after a recovery has copied the pending rooms leads on to two holders: the recovery ends with the room still owed, and the next one deletes a peer that has joined since |
| RelayConverse.RecoveryRuns | packages/relay/src/relay-redis-coordinator.ts:247-269 | A recovery past its snapshot, whatever it is at, can run to its end, which leaves the instance ready with its rooms and what is on its way, and its debts less the copied ones |
| RelayConverse.BothAreNeeded | packages/relay/src/relay-redis-coordinator.ts:148-285 | For each of the two assumptions, a run from nothing breaks it in one step and then has two holders |
| EdgeRoom.EdgeRoom.BroadcastControl | packages/relay/src/edge-room.ts:289-301 | Every peer but one gets the message, once for each peer on its connection, and nobody else gets anything |
| EdgeRoom.EdgeRoom.BeginJoin | packages/relay/src/edge-room.ts:163-171 | A joined connection or a wrong room is refused with its code; otherwise authorisation is asked and nothing changes |
| EdgeRoom.EdgeRoom.FinishJoin | packages/relay/src/edge-room.ts:173-224 | After authorisation: refused, full, duplicate or admitted, in this order; an admitted peer enters both indexes, is told who was there, and everybody else is told of it; `EdgeHistory` says with which connection and capabilities |
| EdgeRoom.EdgeRoom.RemoveConnection | packages/relay/src/edge-room.ts:139-156 | A joined connection leaves both indexes and the remaining peers are told; any other changes nothing |
| EdgeRoom.EdgeRoom.HandleLeave | packages/relay/src/edge-room.ts:104-118 | A leave for the connection's own peer and room removes it; any other is answered with its error |
| EdgeRoom.EdgeRoom.HandleSignal | packages/relay/src/edge-room.ts:120-131 | A signal reaches its target's connection only, and only under the sender's own id |
| EdgeRoom.EdgeRoom.HandleTransport | packages/relay/src/edge-room.ts:255-287 | A transport reaches its target, or every peer but the sender once, each in the form its own session reads; whatever the indexes are like |
| EdgeRuns.ClampIsLowest | packages/relay/src/edge-room.ts:55-68 | The effective capacity is no higher than either the request or a valid limit |
| EdgeRuns.AdmitInverse | packages/relay/src/edge-room.ts:163-199 | Admitting keeps the two indexes inverse to each other if and only if the connection is not joined already |
| EdgeRuns.RunInv | packages/relay/src/edge-room.ts:139-224 | In every run each joined connection leads to a peer that leads back to it, and its client believes the truth or has met itself |
| EdgeRuns.InverseExactly | packages/relay/src/edge-room.ts:163-199 | After any run the two indexes are inverse if and only if no admission found its connection joined already |
| EdgeRuns.NoGhostsExactly | packages/relay/src/edge-room.ts:139-199 | After any run every peer has an open connection that leads to it if and only if no admission found its connection joined already or closed |
| EdgeRuns.GhostStays | packages/relay/src/edge-room.ts:139-156 | A peer with no such connection stays in the room in every continuation, and every client alone on another connection keeps seeing it |
| EdgeRuns.ViewExactly | packages/relay/src/edge-room.ts:139-224 | In every run, folding the control messages sent on a joined connection gives exactly the other peers in the room if and only if no other peer has that connection |
| EdgeRuns.OneAtATimeIsFresh | packages/relay/src/edge-room.ts:139-224 | With at most one join in flight per connection the indexes stay inverse and every client's view is exact |
| EdgeRuns.RoomWithinLimit | packages/relay/src/edge-room.ts:177-181 | In every run whatsoever the room never exceeds a valid `maxRoomSize` |
| EdgeRuns.RoomGrowsWithinRequest | packages/relay/src/edge-room.ts:177-199 | In every run the room grows by admitted joins only, one peer each, and never above what that joiner asked for |
| EdgeRuns.TwoJoinsLeaveAGhost | packages/relay/src/edge-room.ts:163-199 | A run: two joins wait on one connection, both are admitted, the connection closes, and the first peer stays with nothing to remove it |
| EdgeRuns.CloseWhileWaitingLeavesAGhost | packages/relay/src/cloudflare.ts:151-159 | A run with one join at a time: the connection closes while its join waits, the join is admitted all the same, and nothing removes its peer |
| EdgeRuns.ForwardedReadsAsSent | packages/relay/src/edge-room.ts:255-287 | A forwarded transport is bytes exactly for a peer with version 2 and MessagePack, and read as it was sent, with the reader's clock below version 2, if and only if JSON can carry the payload of a text frame and bytes forwarded as they came are dated or find equal clocks |
| EdgeHistory.MembersExactly | packages/relay/src/edge-room.ts:139-199 | After a step exactly those are in the room that came by it, allowed, under a free name and with space by their own wish and the room's limit, or were there and did not leave, fail or close; who came is there by its own connection and announcement, who stayed is unchanged |
| EdgeHistory.ConnectionsExactly | packages/relay/src/edge-room.ts:139-199 | A connection is joined as whoever came over it last, until that peer goes |
| EdgeHistory.EveryPeerJoined | packages/relay/src/edge-room.ts:158-199 | In every run each peer in the room has a join of its name that was begun, allowed and admitted, since when it has not gone |
| EdgeHistory.PeerIsAsItJoined | packages/relay/src/edge-room.ts:194-199 | In every run a peer admitted by a join and not gone since is in the room over the connection that join came by and with the capabilities it announced, or none |
| EdgeHistory.ComingIsTold | packages/relay/src/edge-room.ts:188-223 | The joiner gets a list of exactly those that were there with what each announced; every connection gets, once for each other peer on it, the joiner's name and announcement; nobody gets anything else |
| EdgeHistory.GoingIsTold | packages/relay/src/edge-room.ts:145-155 | Every connection gets, once for each remaining peer on it, the name of the peer that went, and nothing else |
| EdgeHistory.JoinedListsAnnouncements | packages/relay/src/edge-room.ts:188-208 | In every run the entries of a `joined` list are the peers in the room, each with the capabilities of its own join |
| EdgeHistory.SignalDelivered | packages/relay/src/edge-room.ts:120-131 | A signal under its sender's own id goes as it is to the connection of the peer it is for, once, and to nobody else |
| EdgeHistory.TransportDelivered | packages/relay/src/edge-room.ts:264-287 | Each connection gets a transport once for each peer on it that it is for, the one target or all but the sender, in the form of that peer's capabilities, and nothing else |
| EdgeHistory.TransportReachesAsAnnounced | packages/relay/src/edge-room.ts:281-287 | In every run a transport reaches each peer it is for over the connection of that peer's join: as bytes exactly if it announced version 2 and MessagePack, and read there as sent, with the reader's clock below version 2, exactly if JSON can carry the payload of a text frame and bytes passed on are dated or find equal clocks |
| EdgeHistory.FaultIsRefused | packages/relay/src/edge-room.ts:104-192 | A request with a fault changes nobody's membership and is answered with the error of its first fault, to whoever asked and to nobody else |
| EdgeHistory.NoOtherErrors | packages/relay/src/edge-room.ts:104-262 | Nothing but a fault is answered with an error |
| Values.JsonCarriesSafeValues | packages/relay/src/protocol.ts:553-558 | JSON delivers a value unchanged if and only if nothing in it is a byte string or a non-finite number, and what it delivers is always so |
| Schemas.ParseIdempotent | packages/relay/src/protocol.ts:83-203 | Whatever the validator returns for a schema it returns unchanged when it is validated again |
| Schemas.ParseSafe | packages/relay/src/protocol.ts:83-203 | Validating what JSON can carry gives what JSON can carry |
| Schemas.ObjectKeys | packages/relay/src/protocol.ts:83-203 | In a validated object each named key has its own value validated by its own schema and an absent one stays absent; a key not named passes through or is dropped as the schema says |
| WireSchemas.PayloadSchemasWellFormed | packages/relay/src/protocol.ts:83-203 | No payload schema of any signal type names a key twice |
| WireSchemas.KindNamesDistinct | packages/relay/src/protocol.ts:324-340 | A signal type is recovered from its wire name |
| WireSchemas.CapabilitiesAccepted | packages/relay/src/protocol.ts:6-20 | Capabilities are accepted exactly with minimum version 1, maximum version 1 or 2, a list of codecs that are `json` or `msgpack`, and the preferred codec among them |
| WireSchemas.BootstrapPayloads | packages/relay/src/protocol.ts:84-105 | `hello` and `welcome` are accepted exactly with a peer and, if there are any, acceptable capabilities |
| WireSchemas.EncryptedPayloads | packages/relay/src/protocol.ts:106-117 | An encrypted payload is accepted exactly with version 1 and two binaries |
| WireSchemas.PeerPayloads | packages/relay/src/protocol.ts:118-137 | A presence update is accepted exactly with a peer, a leave also without one |
| WireSchemas.CursorAccepted | packages/relay/src/protocol.ts:30-40 | A cursor is accepted exactly with a named user, texts for name and colour, four finite coordinates, an idle flag, and a text for the element if there is one |
| WireSchemas.CursorPayloads | packages/relay/src/protocol.ts:138-157 | A cursor update is accepted exactly with such a cursor, an awareness update exactly with an object that names its peer |
| WireSchemas.StatePayloads | packages/relay/src/protocol.ts:158-172 | A state update is accepted exactly with a list as history, a clock of finite numbers, a known reason, a named author and a finite time, whatever its value |
| WireSchemas.CrdtPayloads | packages/relay/src/protocol.ts:173-194 | A document update is accepted exactly with a known kind, a binary and, if there is one, acceptable metadata; document awareness exactly with a binary |
| WireSchemas.EventPayloads | packages/relay/src/protocol.ts:48-52 | An event is accepted exactly with a name that is not empty and, if there is one, a truth value for the loopback |
| ProtocolRoundTrips.ParsedIsNormalized | packages/relay/src/protocol.ts:395-437 | Whatever the parser lets through is in normal form: ids not empty, payload a fixed point of its schema |
| ProtocolRoundTrips.EnvelopeRoundTrip | packages/relay/src/protocol.ts:395-504 | An envelope of either version, read on its own carrier, gives the signal back; the old one with the reader's clock |
| ProtocolRoundTrips.TransportRoundTrip | packages/relay/src/protocol.ts:506-619 | For every normalised signal and all capabilities: the frame is MessagePack if and only if the peer announced version 2 or more and that codec, and parses to the signal; a JSON frame to a peer of version 2 or more parses to the signal, and one to a lower version or none to the signal with the reader's clock, if and only if the payload is one JSON can carry |
| ProtocolRoundTrips.AcceptedIsOurs | packages/relay/src/protocol.ts:395-460 | Whatever the parser lets through is marked as a transport and as `roomful`, and is version 1, or version 2 with the codec of its carrier, a timestamp and a payload |
| ProtocolRoundTrips.MissingLegacyPayload | packages/relay/src/protocol.ts:380-393 | An old envelope without a payload, or with null there, counts as one with an empty payload, unless it is an event |
| ProtocolRoundTrips.ClockMatters | packages/relay/src/protocol.ts:404-424 | The parser's clock is all a parse depends on, and only for an old envelope without a timestamp |
| ProtocolRoundTrips.ShortcutAgrees | packages/relay/src/protocol.ts:560-585 | Raw bytes and the frame printed anew parse to the same signal if and only if the frame is dated or both clocks agree |
| ProtocolRoundTrips.UndatedFormsDiffer | packages/relay/src/protocol.ts:404-424 | Any normalised signal in an old envelope sent as bytes is such a frame: with different clocks its two forms read differently |
| OfflineQueue.DropEventsDrops | packages/core/src/internal/offline-queue.ts:97-114 | Trimming takes the oldest events and no state change |
| OfflineQueue.AppendEntryKeeps | packages/core/src/internal/offline-queue.ts:116-121 | Appending keeps every state change, at most 100 events, and gives up the oldest event exactly when 100 were queued |
| OfflineQueue.AppendsBehind | packages/core/src/internal/offline-queue.ts:97-121 | A new entry stands behind all queued ones, which stay as they were, but for the oldest event if the new entry is an event and 100 are queued |
| OfflineQueue.OfflineRoom.CountQueuedEvents | packages/core/src/internal/offline-queue.ts:91-95 | The loop counts the queued events |
| OfflineQueue.OfflineRoom.TrimQueuedEvents | packages/core/src/internal/offline-queue.ts:97-114 | The loop leaves out exactly the surplus oldest events |
| OfflineQueue.OfflineRoom.DispatchRoomSignal | packages/core/src/room.ts:3155-3163 | An event is handed to the transport if there is one and lost if there is none |
| OfflineQueue.OfflineRoom.EmitEvent | packages/core/src/room.ts:1796-1846 | While the transport is away or earlier work is pending, the event goes behind everything queued, with a fresh key, at the expense of the oldest event if 100 are queued, and a replay is scheduled; otherwise it is sent at once if there is a transport |
| OfflineQueue.OfflineRoom.CommitStateChange | packages/core/src/room.ts:1940-1970 | Under the same condition the queue gets the state change behind everything queued and loses nothing, and a replay is scheduled; otherwise the change is sent at once if there is a transport |
| OfflineQueue.OfflineRoom.CompleteOfflineWindowIfReady | packages/core/src/room.ts:3022-3035 | The window closes, and `online` is emitted, only with a transport, an empty queue, no timer and no replay |
| OfflineQueue.OfflineRoom.ScheduleOfflineQueueReplay | packages/core/src/room.ts:3037-3057 | Queued work of a live room gets a timer, or a note for the running replay; an empty queue may close the window |
| OfflineQueue.OfflineRoom.ReplayTimerFired | packages/core/src/room.ts:3053-3056 | The timer disarms itself and starts a replay |
| OfflineQueue.OfflineRoom.FlushOfflineQueue | packages/core/src/room.ts:3059-3136 | A replay nobody emits into works the queue off from the front, once, then reschedules or closes the window |
| OfflineQueue.FlushTakesAll | packages/core/src/room.ts:3059-3136 | A replay takes the whole queue in order and leaves no replay running or asked for |
| OfflineQueue.OfflineRoom.ActivateConnectedTransport | packages/core/src/room.ts:3571-3600 | A new transport schedules what is queued, or closes the window |
| OfflineQueue.OfflineRoom.HandleTransportDisconnected | packages/core/src/room.ts:2926-2957 | A drop cancels the timer, opens the window with one `offline` unless it is open, and loses the transport |
| OfflineQueue.OfflineRoom.Disconnect | packages/core/src/room.ts:1047-1105 | A manual disconnect cancels the timer, closes the window silently, forgets the keys and loses the transport |
| OfflineRuns.ReplayOneKeeps | packages/core/src/room.ts:3073-3089 | A replayed event moves from the front of the queue to the end of what was sent; the duplicate check never skips one |
| OfflineRuns.StepInv | packages/core/src/room.ts:2926-3136 | Every step, with emits and disconnects from inside replays, activations and drops, and reminders from inbound signals, keeps: order and count of events, fresh keys, flags that match the running handler, a timer for pending work, paired notices |
| OfflineRuns.RunInv | packages/core/src/room.ts:2926-3136 | All of that in every reachable state |
| OfflineRuns.EventsExactlyOnce | packages/core/src/room.ts:1796-1846 | From the first transport on, events sent followed by events queued are strictly in the order of emission, their number and that of overflowing emits make up all emitted, and they are all of them if and only if no emit found 100 queued events |
| OfflineRuns.WorkExactlyOnce | packages/core/src/room.ts:1940-1970 | In every run the state changes that replays took, followed by those still queued, are exactly all that were made while work had to wait, in order, overflow or not; the events lost are as many as the overflows; and replayed and queued work of both kinds is all that had to wait, in one order, if and only if the queue never overflowed |
| OfflineRuns.OverflowLosesTheFirst | packages/core/src/internal/offline-queue.ts:97-121 | A run that connects, drops and emits 101 events, after which the first is neither sent nor queued |
| OfflineRuns.NoLostWakeup | packages/core/src/room.ts:3000-3136 | Between handlers, with no manual disconnect under way, a live transport with queued work or an open window has a timer armed |
| OfflineRuns.DisconnectCancelsWakeup | packages/core/src/room.ts:1047-1056 | A run to a state, with a manual disconnect under way, in which a live transport has queued work and no timer |
| OfflineRuns.NoticesPair | packages/core/src/room.ts:3022-3035 | `online` comes right after an `offline`, two `offline` never follow each other, the window is open exactly after an `offline`, and `online` finds a live transport and an empty queue |
| OfflineRuns.FlushDelivers | packages/core/src/room.ts:3059-3136 | In any reachable state with a live transport, a replay nobody disturbs sends every queued event in order, empties the queue and closes the window with one `online` if it was open |
| Diff.SplitJoin | packages/devtools/src/diff.ts:18-20 | Dotted paths of non-empty, dot-free names can be read back, so no two paths look alike |
| Diff.SortedKeysSorts | packages/devtools/src/diff.ts:58 | The keys visited are exactly those of either record, each once, in code-unit order |
| Diff.PrecedesExactly | packages/devtools/src/diff.ts:58 | One key precedes another in code-unit order exactly if it is a proper beginning of it or has the smaller code unit where they first differ |
| Diff.DiffCollector.VisitDifference | packages/devtools/src/diff.ts:22-74 | The early-stopping walk into a shared list, reading inherited properties where the record has none, collects exactly the first `maxEntries` of the whole difference |
| Diff.DiffSerializedState | packages/devtools/src/diff.ts:84-105 | The result is that, without lines that have no path, sorted by the given comparison |
| DiffPatch.DifferenceComplete | packages/devtools/src/diff.ts:22-74 | The difference has each entry that walking its path down both values justifies, exactly once, and no other |
| DiffPatch.DifferenceInOrder | packages/devtools/src/diff.ts:57-65 | The entries come in the order of their paths, key by key in code-unit order, so a limit keeps those that come first |
| DiffPatch.ApplySettles | packages/devtools/src/diff.ts:33-73 | Where states can be patched, applying one entry to the earlier settles that entry and leaves what every other entry says unchanged |
| DiffPatch.ApplyAllExactly | packages/devtools/src/diff.ts:22-74 | Applying all entries, in any order, makes the earlier value the same as the later one if and only if it is patchable: no inherited name lost, no `__proto__` record gained |
| DiffPatch.LinesAreEntries | packages/devtools/src/diff.ts:98-104 | Between records the printed lines are a permutation of the first `maxEntries` entries; none is filtered, and their paths read back |
| DiffPatch.LinesAreOrdered | packages/devtools/src/diff.ts:102-104 | Of any two lines the given comparison allows the earlier one's path to come before the later one's |
| DiffPatch.LinesPatch | packages/devtools/src/diff.ts:84-105 | For any two records with non-empty, dot-free keys and a limit that cuts nothing off, the lines patch the earlier into the later, up to the order of keys, if and only if it is patchable |
| DiffPatch.InheritedRemovalIsLost | packages/devtools/src/diff.ts:60 | `{ constructor: 1 }` to `{}`: the entry is a change to an inherited function, its kind does not fit, and the lines do not patch |
| DiffPatch.KindExactly | packages/devtools/src/diff.ts:33-73 | An entry's kind says what became of the own value at its path if and only if neither of its sides is inherited |
| DiffPatch.NoLinesMeansAlike | packages/devtools/src/diff.ts:84-105 | With room for a line, there is none if and only if the records agree key by key, whatever the order of their keys, but for an empty record or one with only a null `__proto__` under a `__proto__` that only one side has |
| DiffPatch.RootChangeHasNoLine | packages/devtools/src/diff.ts:98-101 | Unless both roots are records nothing is reported, whatever changed |
| Serializer.DevtoolsSerializer.SerializeValue | packages/devtools/src/serialize.ts:103-171 | The walk ends on every heap, cyclic or not, and gives the specified tree and set of objects seen |
| Serializer.DevtoolsSerializer.SerializeArray | packages/devtools/src/serialize.ts:36-51 | The first items one level deeper, in order, with a count of those left out |
| Serializer.DevtoolsSerializer.SerializeObject | packages/devtools/src/serialize.ts:53-73 | The first keys in sorted order one level deeper, with a count of those left out |
| Serializer.ShownBounded | packages/devtools/src/serialize.ts:36-171 | Every array has at most one item more than its limit, every record one key more, texts keep to theirs, and containers nest no deeper than `maxDepth` |
| Serializer.ShownPictures | packages/devtools/src/serialize.ts:36-171 | What is shown is there: scalars, error and binary nodes as they are, the first items and the first keys in sorted order each with the picture of its own value, `[MaxDepth]` exactly at the depth limit, `[Circular]` exactly for a plain object that has a record earlier in the walk, and every omission with its exact count |
| Serializer.ShownKeysAreFirst | packages/devtools/src/serialize.ts:59-66 | The keys of a record are all its keys in the given order, and the shown ones are the first of them, as many as the limit allows |
| Serializer.RecordsPaid | packages/devtools/src/serialize.ts:161-168 | A walk shows no more records than it has newly seen plain objects, all of them in the heap |
| Serializer.RecordsBounded | packages/devtools/src/serialize.ts:180-190 | However tangled the heap, the result has no more records than the heap has objects |
| Serializer.CircularExactly | packages/devtools/src/serialize.ts:161-168 | Something is shown as circular if and only if unfolding the heap within the limits, without looking at what was seen, meets a plain object twice |
| Serializer.SharingLooksCircular | packages/devtools/src/serialize.ts:162-164 | So it is for an object that two keys share, though there is no cycle |
| StructuredValues.AreStructuredValuesEqual | packages/core/src/adapter-runtime.ts:45-85 | The comparison decides the two-sided relation, though it looks keys up on one side and only counts them on the other |
| StructuredValues.ArePropsEqual | packages/core/src/adapter-runtime.ts:68-84 | The key loop with its count check decides that both sides have the same keys with equal values |
| StructuredValues.ArePeersEqual | packages/core/src/adapter-runtime.ts:101-131 | The same for peers without `lastSeen` |
| StructuredValues.SameCountSameKeys | packages/core/src/adapter-runtime.ts:70-72 | Equal counts and one inclusion make the key sets equal, which is what symmetry rests on |
| StructuredValues.EqualReflexive | packages/core/src/adapter-runtime.ts:46-48 | A value equals itself if and only if it is not NaN |
| StructuredValues.EqualSymmetric | packages/core/src/adapter-runtime.ts:45-85 | Equality is symmetric |
| StructuredValues.EqualTransitive | packages/core/src/adapter-runtime.ts:45-85 | Equality is transitive, shortcuts by reference included |
| StructuredValues.PeersEqualIsEquivalence | packages/core/src/adapter-runtime.ts:101-131 | Equality of peers is an equivalence relation |
| StructuredValues.LastSeenDoesNotMatter | packages/core/src/adapter-runtime.ts:109-114 | Peers that differ in `lastSeen` only are equal |
| StructuredValues.EqualExactly | packages/core/src/adapter-runtime.ts:45-85 | Values without NaN are equal if and only if no path of indexes and keys leads to places of theirs that look different |
| StructuredValues.PeersEqualExactly | packages/core/src/adapter-runtime.ts:101-131 | Peers are equal if and only if they are one object or have the same keys but `lastSeen`, with equal values |
| SnapshotCaches.ListCache.AreListsEqual | packages/core/src/adapter-runtime.ts:136-158 | The array comparison decides equality item by item |
| SnapshotCaches.ListCache.ReadSnapshot | packages/react/src/index.ts:2542-2568 | A read keeps the cached array if it is equal, else builds one that keeps each equal item; another room or engine starts over |
| SnapshotCaches.ReturnedIsCurrent | packages/react/src/index.ts:2542-2568 | What a read returns is always equal to the engine's list at that moment |
| SnapshotCaches.ReferenceKeptExactly | packages/react/src/index.ts:2200-2231 | Over any sequence of reads, a read returns the previous array if and only if two consecutive engine lists are equal |
| SnapshotCaches.ItemKeptExactly | packages/react/src/index.ts:2554-2561 | The item at an index stays the same object if and only if the engine's items there are equal in consecutive reads |
| SnapshotCaches.StartsOver | packages/react/src/index.ts:2542-2568 | After a change of room or engine a read returns the engine's own list |
| SnapshotCaches.ValueCache.ReadSharedState | packages/react/src/index.ts:2626-2649 | The cached value is returned as long as room and engine are the same and it equals the engine's; otherwise the engine's is cached and returned |
| SnapshotCaches.ValueIsCurrent | packages/react/src/index.ts:2626-2649 | The value handed out is the engine's or equal to it |
| SnapshotCaches.ValueKeptExactly | packages/react/src/index.ts:2634-2640 | It stays identical if and only if consecutive engine values are equal |
| SnapshotCaches.ValueStartsOver | packages/react/src/index.ts:2626-2649 | After a change of room or engine a read returns the engine's own value |
| PresenceCache.PresenceViewCache.ReadPresence | packages/react/src/index.ts:2491-2540 | The cached object is returned if all three parts are equal, else one that keeps each equal part |
| PresenceCache.ViewIsCurrent | packages/react/src/index.ts:2491-2540 | Each part returned is equal to the engine's |
| PresenceCache.ViewKeptExactly | packages/react/src/index.ts:2506-2508 | Over any sequence of reads the object is kept if and only if self, others and all stay equal |
| PresenceCache.PartsKeptExactly | packages/react/src/index.ts:2510-2516 | Each part is kept if and only if it stays equal, whatever becomes of the other two |
| PresenceCache.ViewStartsOver | packages/react/src/index.ts:2491-2540 | After a change of room or engine a read returns the engine's own object |
| AnimatedPresence.CompareIsPreorder | packages/cursors/src/presence-animated-list.ts:156-177 | The comparison is total and transitive |
| AnimatedPresence.MergeAnimatedPeers | packages/cursors/src/presence-animated-list.ts:109-154 | The loops over map, set and list build the specified merge |
| AnimatedPresence.AreAnimatedPeerArraysEqual | packages/cursors/src/presence-animated-list.ts:179-207 | The loop decides equality item by item |
| AnimatedPresence.MergedIsUnion | packages/cursors/src/presence-animated-list.ts:113-151 | The result has everybody of either list once: those present at their new index, entering if new, entered if they were exiting and else in their phase, the others exiting in their old place |
| AnimatedPresence.MergedIsOrdered | packages/cursors/src/presence-animated-list.ts:153-177 | Orders never decrease along the list, and among equal ones nobody present follows somebody who is exiting |
| AnimatedPresence.PresentAreNext | packages/cursors/src/presence-animated-list.ts:109-154 | Read off in order, the peers that are not exiting are exactly the new list |
| AnimatedPresence.MergeAgainIsSame | packages/cursors/src/presence-animated-list.ts:23-28 | Merging the same peers again changes nothing, element by element, so the state update settles |
| StableSort.SortOrders | packages/cursors/src/presence-animated-list.ts:153 | Sorting by a total preorder gives an ordered sequence |
| StableSort.SelectSorted | packages/cursors/src/presence-animated-list.ts:153 | Sorting is stable: selecting before or after it is the same |
| Calendar.YearUnique | packages/cloud-api/src/metering.ts:117-124 | A day belongs to one year only |
| Calendar.MonthUnique | packages/cloud-api/src/metering.ts:117-124 | A day belongs to one month of one year only |
| Calendar.MakeDayParts | packages/cloud-api/src/metering.ts:117-122 | A day is rebuilt from its year, month and date |
| Calendar.NextMonth | packages/cloud-api/src/metering.ts:137-139 | The month after a month begins where that month ends, across the end of a year too |
| Calendar.MonthLengths | packages/cloud-api/src/metering.ts:117-139 | Months have 31 days but for April, June, September and November, which have 30, and February, which has 28 and in a leap year 29 |
| Calendar.YearLengths | packages/cloud-api/src/metering.ts:117-139 | Years have 366 days if divisible by 4 and, for full centuries, by 400, and else 365; day 0 begins 1970 |
| Metering.AddGranularityIsEnd | packages/cloud-api/src/metering.ts:128-142 | From the beginning of a window, adding the granularity leads to its end |
| Metering.TruncateAligned | packages/cloud-api/src/metering.ts:114-126 | Truncating always leads to the beginning of a window |
| Metering.WindowHolds | packages/cloud-api/src/metering.ts:114-142 | An event's window holds the event if and only if it is not from the years 0 to 99 |
| Metering.WindowIs | packages/cloud-api/src/metering.ts:114-142 | The window of an event that is not an early one begins on the hour, at midnight or on the first of the month, and holds exactly the times of the same hour, day or month |
| Metering.EarlyTime | packages/cloud-api/src/metering.ts:114-126 | An event at the beginning of the year 50 lies in no window of its own, for any granularity |
| Metering.WindowsDisjoint | packages/cloud-api/src/metering.ts:114-142 | Two windows that share a moment are the same window |
| Metering.Gather | packages/cloud-api/src/metering.ts:80-90 | The loop makes one bucket per window in order of first events, each with the sums of its events |
| Metering.AggregateUsage | packages/cloud-api/src/metering.ts:76-112 | One window for each hour, day or month with events, in the order of their first events, with its end and, per type, what its events add up to |
| Metering.QuantityConserved | packages/cloud-api/src/metering.ts:76-112 | For every type the windows' totals add up to the events' quantities |
| Metering.OneWindowEach | packages/cloud-api/src/metering.ts:76-112 | Each event is counted in a window that holds it if and only if it is not an early one, and lies in no second window |
| ApiKeys.Base62Encode | packages/cloud-api/src/api-keys.ts:9-18 | The loop writes the big-endian value of the bytes in base 62; no bytes are an error |
| ApiKeys.ValueOfConcat | packages/cloud-api/src/api-keys.ts:10-10 | The number of the bytes is big-endian: bytes in front count 256 times for each byte behind them |
| ApiKeys.ValueOfInjective | packages/cloud-api/src/api-keys.ts:10-10 | Bytes of the same length with the same number are the same, so 48 random bytes lose nothing in the encoding |
| ApiKeys.NumeralDecodes | packages/cloud-api/src/api-keys.ts:9-18 | Decoding gives the value back, so encoding is injective; no leading zero unless the value is zero |
| ApiKeys.DecodeNumeral | packages/cloud-api/src/api-keys.ts:13-17 | Every numeral without a leading zero is what its value is written as |
| ApiKeys.SecretLength | packages/cloud-api/src/api-keys.ts:20-23 | 48 bytes take at most 65 digits |
| ApiKeys.PrefixIsOfRandomPart | packages/cloud-api/src/api-keys.ts:29-34 | A key's prefix is the first eight characters of its random part, which the separator cannot cut short |

## Left out

Assumptions of the relay runs:

- Redis keeps its data and runs each script and each command atomically; commands of one pipeline may have others' between them.
- The two timing assumptions, stated as `RelaySystem.Tame`: see above.
- `leave` is called for peers the instance joined. `stop()` is not modelled; it forgets queued messages.
- RelayHistory.NoGhostEntries: nothing is claimed about how long a ghost entry stays; by `RelayHistory.OrphansExactly` it is until a sync of its own instance in that room.
- RelayHistory.RecoveryRestoresCapacity: where another instance writes the key during the recovery, only that there is a key is claimed, since the two values may differ.
- No bound on the size of a room across `syncRoom` is claimed: a sync may install a capacity of its own.
- A sync is built from what the room holds when the call starts; the order of entries in a hash, and so of the existing peers in a reply, is not modelled.
- The order in which a recovery visits its rooms is left open.
- The answer of `joinRoom` is the script's: the parsing of its reply, a malformed reply and the text of its messages are not modelled.
- Channel subscriptions, envelope parsing, malformed stored entries and ioredis' own resending of commands.
- Whether every pending reply or recovery ends: nothing is claimed about liveness of the relay.

Edge room:

- `send` is taken not to throw. If it throws on a closed connection while a join is admitted, the peer is in both indexes, but the others are not told of it, and their views are wrong too.
- Which token an authorisation looks at. That a rejected connection is closed is an event that may or may not follow.
- A connection sends nothing after it has closed.

Offline queue:

- The room's status is not modelled; connects and drops may come in any order, which covers all orders the status allows.
- What a state change does to the shared state, made or replayed, snapshots, encryption, presence and locks; only its place in the queue is modelled.
- The transport does not vanish inside the synchronous replay loop, sending does not throw, and a manual disconnect ends.
- `crypto.randomUUID()` never repeats a key. Listeners of `online` run at the end of the step that emits it.
- OfflineRuns.NoLostWakeup: nothing is claimed while a manual disconnect is under way, which cancels the timer and then drops the transport; `OfflineRuns.DisconnectCancelsWakeup` shows that nothing could be.

Wire protocol and values:

- JSON text and MessagePack bytes are the trees they encode; malformed frames are `Garbage`. Negative zero, MessagePack extension types and sparse arrays are not modelled.
- Control messages (`join`, `leave`, `signal` and the server's own) are not parsed, nor is `maxPeers` normalised.
- Zod is modelled by the schemas the protocol uses, not in general.

Smaller cores:

- DiffPatch.LinesPatch: empty and dotted keys are excluded, as their paths are ambiguous. A value that is not serialized, which only an inherited side can be, counts as null when it is stored.
- The comparison of `localeCompare` is a parameter; nothing but what is stated about it is used. So is that of the serializer.
- Serializer.ShownPictures: records with an own key `__truncatedKeys`, which the mark for keys left out replaces, or `__proto__`, which sets a prototype and not a key, are excluded.
- Serializer.CircularExactly: excludes the same records.
- Serializer.ShownBounded: the fixed nodes of errors and binary values count as one container; the preview of a binary value is one level deeper still.
- Getters, proxies and prototypes with their own ideas about keys; integer-like keys, which an object lists first; limits below zero.
- StructuredValues.EqualTransitive: values are snapshots, so nothing changes under a reference between two reads; `Object.keys` of class instances is not modelled outside peers.
- The Vue and Svelte adapters' copies of the caches, and those of cursors, awareness, comments and beams, which follow the lists' pattern.
- The timers of the animation, and the React state that holds its list.
- Metering.AggregateUsage: adds exact reals, where the source adds doubles, which may round.
- Metering.QuantityConserved: holds of the exact sums; rounded ones depend on the order of the additions.
- Times are numbers and not ISO texts; dates outside the range of a `Date`, the filter of a query, and the project id in a window, which is that of the first event.
- Hashing, expiry and the stores of API keys; the random bytes are a parameter.
