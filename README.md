# Session registry of the mediasoup SFU server

This project models the part of the server that keeps track of rooms and peers:

- the process-wide `rooms` map (room id to a room holding one router and its peers) and its reverse index `peerRooms` (socket id to room id);
- `getOrCreateRoom` and `getRoomByPeerId`;
- the socket.io handlers that drive both maps: `joinRoom`, `getRouterRtpCapabilities`, `createTransport`, `connectProducerTransport`, `transport-produce`, `connectConsumerTransport`, `consumeMedia`, `resumePausedConsumer` and `disconnect`;
- the engine events the handlers subscribe to: a consumer's `producerclose`, and `transportclose` on producers and consumers.

`apps/server/src/index.ts` is an older single-file copy of `apps/server/src/handlers/signaling.ts` and `apps/server/src/lib/rooms.ts`. Its handlers do the same map operations in the same order, so one set of members models both. There is one textual difference. In `transport-produce`, `index.ts` sends `newProducer` to the room named by the reverse index (`index.ts:250`), while `signaling.ts` uses the peer's own `roomId` (`signaling.ts:134`). The two names are equal for every peer a handler can find: this is the first postcondition of `Rooms.LocatedRecipients`. The inline lookups `roomId ? rooms.get(roomId) : null` in `index.ts` are `getRoomByPeerId` written out.

## Layout

- `jsmap.dfy` (module `JsMap`): a JavaScript `Map` as a finite map plus the keys' insertion order (`forEach` visits keys in that order).
- `types.dfy` (module `Types`): the `Peer` and `Room` records of `types.ts`, and the media engine's objects, known by their ids. Also the server pushes, the error replies, and the log of effects (pushes, `close()` calls, `connect()` calls).
- `rooms.dfy` (module `Rooms`): the lookups, on values. It defines two invariants over (`rooms`, `peerRooms`, socket.io rooms), and the lemmas that every directory update keeps them:
  - `Valid`: every handler keeps it.
  - `Coherent`: the two maps agree both ways. Every handler keeps it except two kinds of `joinRoom`: one that moves a socket from another room to a second room, and one with room id "".
- `scans.dfy` (module `Scans`): the `forEach` loops. Each one is a function of the map's insertion order, a loop method proved to compute that function, and the lemmas the handlers rely on.
- `signaling.dfy` (module `Signaling`): the class `SessionRegistry`. Its fields are the two maps, the socket.io rooms, the set of closed engine objects, the engine's id counter, the transport each producer and consumer was created on (standing for its registered `transportclose` handler) and the effects log. Each handler is a method.

### How the outside world appears

- **The media engine.** Whether the engine fails at a step is a `bool` parameter: `routerFails` for `createRouter`, and `engineFails` for `createWebRtcTransport`, `produce` and `consume`. `router.canConsume` is a function parameter. The ids the engine hands out come from the counter `nextId`. The same counter also gives each new peer record its `uid`, so no two records ever share one. The model marks an engine object closed by putting its id in `closed`. That covers the handlers' `close()` calls, and the producers and consumers a closed transport takes with it, held or replaced. The engine's further cascades, from closing a router or a producer, are not added to `closed` (see "Left out").
- **socket.io rooms.** They are the field `channels`:
  - `socket.join(roomId)` adds the socket;
  - before the `disconnect` handler runs, the socket is taken out of all of them;
  - `socket.to(roomId).emit(...)` is an `Emit` effect addressed to the room's sockets other than the sender.
- **Peer identity.** A `Peer` record's identity is its `uid`. The `producerclose` callback captured the record object, not its key, so it acts only if that record is still stored.
- **Atomicity.** Each handler runs as one atomic step.

## Model

| member | source | states |
|---|---|---|
| `JsMap.Empty` | apps/server/src/lib/rooms.ts:25 | `new Map()` has no entries |
| `JsMap.Set` | apps/server/src/handlers/signaling.ts:50 | `map.set(k, v)` maps `k` to `v`; an existing key keeps its place in iteration order and a new key goes last |
| `JsMap.Delete` | apps/server/src/handlers/signaling.ts:28 | `map.delete(k)` removes exactly `k` from the entries; the remaining keys keep their order, the key order being the old one with `k` cut out at its position; an absent `k` leaves the map as it is |
| `JsMap.WithoutSplits` | apps/server/src/handlers/signaling.ts:28 | cutting a present key out of a duplicate-free key order leaves what stood before it followed by what stood after it |
| `JsMap.IsEmpty` | apps/server/src/handlers/signaling.ts:31 | `size === 0` holds exactly when the map has no entries |
| `JsMap.SetUnchanged` | apps/server/src/handlers/signaling.ts:205-209 | storing a key's own value again gives back the same map, contents and order |
| `Types.NewPeer` | apps/server/src/handlers/signaling.ts:45-49 | the record `joinRoom` stores: the given room id, no transports, no producer, no consumers |
| `Types.NewRoom` | apps/server/src/lib/rooms.ts:23-26 | a created room has the new router and no peers |
| `Rooms.Get` | apps/server/src/lib/rooms.ts:16 | `map.get(key)` is defined exactly when the key is present, and is then its value |
| `Rooms.RoomByPeerId` | apps/server/src/lib/rooms.ts:35-38 | a room is found exactly when the socket has an index entry whose id is non-empty and names a stored room, and it is that stored room; the empty id counts as no entry |
| `Rooms.PeerBySocket` | apps/server/src/index.ts:194-196 | the peer is found exactly when the room is found and lists the socket; the result carries the index's room id, that room and that peer record |
| `Rooms.Others` | apps/server/src/handlers/signaling.ts:134 | `socket.to(roomId)` reaches exactly the sockets joined to `roomId` other than the sender |
| `Rooms.LeaveAll` | apps/server/src/handlers/signaling.ts:12 | a disconnecting socket is taken out of every socket.io room and nothing else changes |
| `Rooms.LeaveAllIdempotent` | apps/server/src/index.ts:124 | taking a socket out of every room twice is doing it once |
| `Rooms.StoreConsumerWellFormed` | apps/server/src/handlers/signaling.ts:179 | storing a consumer under its producer's id keeps every consumer keyed by its producer id |
| `Rooms.DropConsumerWellFormed` | apps/server/src/handlers/signaling.ts:184 | removing a key keeps every consumer keyed by its producer id |
| `Rooms.LocatedWhenIndexed` | apps/server/src/handlers/signaling.ts:15-19 | under the invariant, a socket indexed to a non-empty room id is found: its room and its peer record exist and the record names that room (so the two inner guards of `disconnect` always pass) |
| `Rooms.RoomExistsIffIndexed` | apps/server/src/handlers/signaling.ts:31-33 | in a coherent directory a room is stored exactly when some socket is indexed to it |
| `Rooms.CoherentBroadcast` | apps/server/src/handlers/signaling.ts:22 | in a coherent directory `socket.to(roomId)` reaches exactly the room's peers other than the sender |
| `Rooms.CoherentSingleRoom` | apps/server/src/lib/rooms.ts:6-10 | in a coherent directory a socket is listed by at most one room |
| `Rooms.BroadcastWithinRoom` | apps/server/src/handlers/signaling.ts:134 | under the invariant alone a push reaches only peers listed in the room |
| `Rooms.UpdatePeer` | apps/server/src/handlers/signaling.ts:93-96 | replacing a found peer's record changes only that record: the same rooms, the same router, the same keys in the same order, every other room and peer as before |
| `Rooms.WithoutPeer` | apps/server/src/handlers/signaling.ts:28-35 | the peer is removed from its room; the room stays, holding the map with that key deleted, exactly when somebody is left; no other room changes |
| `Rooms.LocatedWellFormed` | apps/server/src/types.ts:5 | a peer found through the index records the room it is listed in, and its consumers are keyed by producer id |
| `Rooms.LocatedRecipients` | apps/server/src/index.ts:250 | for a found peer the index's room id equals the peer's own `roomId`; in a coherent directory the push reaches exactly the room's other peers, before and after the record is replaced |
| `Rooms.JoinTouchesOnlyItsRoom` | apps/server/src/handlers/signaling.ts:43-51 | a join lists the socket in the joined room under the new record, keeps that room's router and other peers, and changes no other room |
| `Rooms.UpdatePeerKeepsValid` | apps/server/src/handlers/signaling.ts:127 | replacing a found peer's record with one that keeps its room id and consumer keys keeps the invariant, and keeps coherence |
| `Rooms.JoinKeepsValid` | apps/server/src/handlers/signaling.ts:50-53 | a join keeps the invariant; it keeps coherence when the room id is non-empty and the socket was not indexed to another room |
| `Rooms.JoinMoveLeavesStale` | apps/server/src/index.ts:162-163 | a join from a socket indexed to another room leaves it listed in that room while the index names the new one, so the maps disagree |
| `Rooms.LeaveKeepsValid` | apps/server/src/handlers/signaling.ts:28-37 | removing the peer, dropping an emptied room, deleting the index entry and leaving the socket.io rooms keeps the invariant and keeps coherence |
| `Scans.ExistingProducersMembers` | apps/server/src/handlers/signaling.ts:56-61 | a producer id is in `existingProducers` exactly when some peer of the room other than the joiner has that producer |
| `Scans.ExistingProducersIgnoresJoiner` | apps/server/src/handlers/signaling.ts:57-58 | the list is the same whatever record is stored under the joiner's key, so it is the list of the room as it was before the join |
| `Scans.CollectExistingProducers` | apps/server/src/index.ts:168-173 | the loop collects the other peers' producer ids in iteration order |
| `Scans.LastProducerWith` | apps/server/src/handlers/signaling.ts:155-160 | the scan finds nothing exactly when no peer has a producer with that id; otherwise it finds a producer with that id held by a peer of the room |
| `Scans.FindProducer` | apps/server/src/index.ts:273-278 | the loop ends holding the producer found by that scan |
| `Scans.Resumed` | apps/server/src/handlers/signaling.ts:205-209 | `resume()` on the consumer asked for unpauses it when it is open; a closed consumer or any other consumer keeps its paused flag; the id, producer, kind and transport never change |
| `Scans.ResumeChangesOnlyTarget` | apps/server/src/handlers/signaling.ts:205-209 | only an open consumer whose id is the requested one changes, and only its paused flag, which becomes false |
| `Scans.ResumeUnknownIsNoop` | apps/server/src/index.ts:323-329 | an id no consumer has changes nothing |
| `Scans.ResumeIdempotent` | apps/server/src/handlers/signaling.ts:207 | resuming twice is resuming once |
| `Scans.ResumeEach` | apps/server/src/index.ts:324-328 | the loop leaves the consumers as resuming the matching ones describes, keys and order unchanged |
| `Scans.CloseEach` | apps/server/src/handlers/signaling.ts:27 | one `close()` per consumer, in iteration order |
| `Scans.CloseEachTargets` | apps/server/src/index.ts:139 | the consumer loop closes exactly the peer's consumers |
| `Scans.CloseCalls` | apps/server/src/handlers/signaling.ts:27 | the loop makes exactly those calls |
| `Scans.HandleTargets` | apps/server/src/handlers/signaling.ts:21-26 | the producer part closes exactly the producer and the two transports that are present |
| `Scans.DisconnectClosesEverything` | apps/server/src/handlers/signaling.ts:21-27 | every object the peer holds is closed: its producer, both transports and every consumer |
| `Scans.HandleNotifiesFirst` | apps/server/src/index.ts:133-138 | the only push is `producerClosed` with the producer's id, it comes first, and the producer's `close()` follows it directly |
| `Scans.DisconnectNotifiesFirst` | apps/server/src/handlers/signaling.ts:20-27 | over everything `disconnect` does to the peer, the only push is `producerClosed`, it comes before any `close()`, and without a producer nobody is told anything |
| `Signaling.ResumeKeepsWellFormed` | apps/server/src/types.ts:9 | resuming keeps every consumer under its producer's key |
| `Signaling.CreatedOn` | apps/server/src/handlers/signaling.ts:129-131 | the objects whose `transportclose` handler fires for transport `t` are exactly those registered as created on `t` |
| `Signaling.CreatedOnRegister` | apps/server/src/handlers/signaling.ts:181 | registering a new object on a transport adds that object to the transport's set and keeps every object registered before, replaced or not; other transports keep their sets |
| `Signaling.SessionRegistry.FreshId` | apps/server/src/handlers/signaling.ts:126 | a new id is the counter's value, and the counter moves past it, so no id is handed out twice; the counter serves both the engine's objects (routers, transports, producers, consumers) and the `uid` of each new peer record, which is not an engine object |
| `Signaling.SessionRegistry.Send` | apps/server/src/handlers/signaling.ts:134 | a push appends exactly one `Emit` of that push to those recipients to the effects log |
| `Signaling.SessionRegistry.CloseObject` | apps/server/src/handlers/signaling.ts:32 | `close()` on an engine object appends exactly one `Close` of it to the log and marks it closed |
| `Signaling.TransportCascade` | apps/server/src/handlers/signaling.ts:25-26 | closing a peer's transports takes with it exactly the objects created on the one transport or the other |
| `Signaling.SessionRegistry.CloseTransport` | apps/server/src/handlers/signaling.ts:25 | `close()` on a transport logs one `Close` of it and marks closed the transport and every producer and consumer created on it |
| `Signaling.SessionRegistry.constructor` | apps/server/src/lib/rooms.ts:5-10 | both maps start empty, which satisfies both invariants |
| `Signaling.SessionRegistry.OnConnection` | apps/server/src/handlers/signaling.ts:8-10 | the connecting socket alone is told its own id |
| `Signaling.SessionRegistry.GetOrCreateRoom` | apps/server/src/lib/rooms.ts:12-33 | a known id gives the stored room and changes nothing; an unknown id stores a new room with a fresh router and no peers under it and changes no other key; a failing `createRouter` stores nothing; a returned room is the stored one |
| `Signaling.SessionRegistry.AddPeer` | apps/server/src/handlers/signaling.ts:45-53 | stores a fresh peer record under the socket in the room, indexes the socket to the room and joins the socket.io room; keeps the invariant. `getOrCreateRoom` stored the room object (`rooms.ts:28`) and the peer is then added to that same object (`signaling.ts:50`), so the directory ends holding the room with the peer added |
| `Signaling.SessionRegistry.JoinRoom` | apps/server/src/handlers/signaling.ts:41-71 | a failing router creation replies "Failed to join room" and changes nothing; otherwise the room's new state, the index entry and the socket.io room as above, and the reply carries the router and the other peers' producers of the room as it was before; the invariant always holds after, and coherence holds unless the socket moved from another room or the room id is "" |
| `Signaling.SessionRegistry.RouterRtpCapabilities` | apps/server/src/index.ts:185-191 | a reply exactly when the socket's index entry is non-empty and names a stored room, and then it carries that room's router |
| `Signaling.SessionRegistry.CreateTransport` | apps/server/src/handlers/signaling.ts:80-109 | a socket not found in a room gets "Not in a room" and an engine failure gets the error, both changing nothing; otherwise a fresh transport fills only the slot `sender` selects, overwriting without closing, and its id is the reply |
| `Signaling.SessionRegistry.ConnectTransport` | apps/server/src/handlers/signaling.ts:111-115 | `connect()` is called on the matching transport exactly when the peer is found and has one; nothing else happens |
| `Signaling.SessionRegistry.Produce` | apps/server/src/handlers/signaling.ts:126-134 | a fresh producer on the publish transport becomes the peer's only producer, registered as created on that transport, and `newProducer` with its id goes to the room's other sockets; nothing else changes and both invariants are kept |
| `Signaling.SessionRegistry.TransportProduce` | apps/server/src/handlers/signaling.ts:117-137 | no peer or no publish transport gets "No producer transport" and changes nothing; a rejected `produce()` leaves the callback unanswered and changes nothing; otherwise as `Produce`, replying with the producer's id |
| `Signaling.SessionRegistry.ConsumeMedia` | apps/server/src/handlers/signaling.ts:145-198 | the guards in order ("Not ready to consume", "Producer not found", "Cannot consume", engine error), each failure storing nothing; conversely, when every guard passes and the engine does not fail the reply is a success; on success a fresh consumer on the subscribe transport, paused exactly when the producer carries video, is stored under the producer's id and registered as created on that transport, and nothing else changes |
| `Signaling.SessionRegistry.Consume` | apps/server/src/handlers/signaling.ts:173-181 | the success path of `consumeMedia`: the fresh consumer, its storing under the producer's id, its registration on the subscribe transport; both invariants are kept |
| `Signaling.SessionRegistry.ResumePausedConsumer` | apps/server/src/handlers/signaling.ts:200-211 | a socket not found, or an id no consumer has, changes nothing; otherwise only the matching open consumers are resumed |
| `Signaling.SessionRegistry.CloseHandles` | apps/server/src/handlers/signaling.ts:21-26 | logs and closes the producer part of the cleanup in order |
| `Signaling.SessionRegistry.CloseConsumers` | apps/server/src/handlers/signaling.ts:27 | logs and closes every consumer in iteration order |
| `Signaling.SessionRegistry.ClosePeer` | apps/server/src/handlers/signaling.ts:20-27 | what `disconnect` does to the peer's objects, in order; the objects that become closed are exactly those, plus every producer and consumer ever created on either of its transports, held or replaced (`signaling.ts:25-26` with the handlers of `signaling.ts:129-131` and `:181`) |
| `Signaling.SessionRegistry.RemovePeer` | apps/server/src/handlers/signaling.ts:18-35 | after the peer's objects (with what its transports take with them), the peer leaves its room; the router is closed and the room deleted exactly when nobody is left |
| `Signaling.SessionRegistry.Depart` | apps/server/src/handlers/signaling.ts:16-37 | the cleanup for an indexed socket: the above, including the producers and consumers created on the peer's transports, the index entry removed, the invariant and coherence kept |
| `Signaling.SessionRegistry.Disconnect` | apps/server/src/handlers/signaling.ts:12-39 | the socket leaves every socket.io room; no index entry, or the empty id, changes nothing else; otherwise the full cleanup with `producerClosed` going to the room's remaining sockets, closing every producer and consumer created on the peer's transports, replaced ones included; afterwards the socket has no index entry with a non-empty id; both invariants are kept |
| `Signaling.SessionRegistry.DisconnectTwice` | apps/server/src/index.ts:124-151 | a second `disconnect` of the same socket changes nothing: two calls end in the state one call describes |
| `Signaling.SessionRegistry.OnTransportClosed` | apps/server/src/lib/mediasoup.ts:31-35 | the engine's closing of a transport closes it, and with it every producer and consumer ever created on it, including those the registry has since replaced (their `transportclose` handlers call `close()`); the directory does not change |
| `Signaling.SessionRegistry.OnProducerClosed` | apps/server/src/handlers/signaling.ts:182-185 | the consumer is closed; when the capturing peer record is still stored, exactly the producer's key is removed from its consumers and nothing else changes; otherwise nothing else changes |

## Left out

- Interleaving across `await`. Each handler is one atomic step. The race in `getOrCreateRoom`, where two joins each create a router, is not modelled. Under atomicity the room, and with it the router, is created once: `JoinRoom` reuses a stored room.
- The engine's internals: ICE, DTLS and RTP negotiation inside `connect`, `produce` and `consume`. `rtpParameters`, `iceParameters`, `iceCandidates` and `dtlsParameters` are left out. The RTP capabilities a reply carries are represented by the router's id.
- `apps/server/src/lib/mediasoup.ts` beyond the `dtlsstatechange` handler, which only `OnTransportClosed` models. `apps/server/src/config.ts`, the client, the shared package and the HTTP/socket.io server setup are not part of this model.
- The `socket` field of `Peer`, which is only used to reach socket.io. Console logging.
- Engine event cascades beyond one transport. Closing a router makes the engine close every transport created on it, replaced ones included, and with them their producers and consumers. Closing a producer, directly or with its transport, fires `producerclose` on its consumers. None of these is added to `closed`. The `producerclose` event is the separate operation `OnProducerClosed`, which the model does not trigger automatically.
- `Signaling.SessionRegistry.OnTransportClosed`: the `close()` the `transportclose` handlers call is recorded in `closed`, not in `effects`. The same holds for `CloseTransport`.
- `Signaling.SessionRegistry.TransportProduce` and `Signaling.SessionRegistry.ConnectTransport`: `produce()` (`signaling.ts:126`, `index.ts:242`) and `connect()` (`signaling.ts:114`, `:142`, `index.ts:229`, `:259`) are awaited without a `try`/`catch`. A rejection escapes the socket.io listener as an unhandled promise rejection. Under Node's default mode this ends the process, and every room with it. The model assumes the process survives. It treats a rejected `produce()` as no reply and no change, and it has no failure case for `connect()`.
- Validation of `kind` at `produce`: `Kind` has only the two values the engine accepts.
- Objects replaced in place are not closed at the moment they are replaced. This holds for a second transport in the same slot, a second producer, and a second consumer for the same producer. The model reproduces it: the old object stays open and is no longer reachable from the registry. A replaced producer or consumer is closed later, when the transport it was created on closes and its `transportclose` handler runs. That happens in `OnTransportClosed`, or through the transport's `close()` in `disconnect` (`CloseTransport`). A replaced transport keeps its `dtlsstatechange` handler, so it is closed when its DTLS state becomes "closed" (`OnTransportClosed`, which accepts any transport id) or when its router closes. The model records the first and not the second.
- A `joinRoom` from a socket already in the same room replaces the whole peer record (`signaling.ts:50`). The old record's transports, producer and consumers are neither closed nor announced to the room.
- The room socket.io gives every socket, named after the socket's own id, is not in `channels`. No handler sends to it, and `socket.emit` to the sender is modelled directly.
- `Scans.Resumed`: the model takes `resume()` on a closed consumer to change nothing and not to fail, and does not wait for its promise.
- A room id of "" is modelled as written. `joinRoom` accepts it. `getRoomByPeerId` and `disconnect` treat it as absent, so such a peer and its room are never cleaned up.
- A `joinRoom` from a socket already in another room is modelled as written. The socket stays listed in that room, and `Rooms.JoinMoveLeavesStale` states the resulting disagreement. `JoinRoom` promises coherence only when the socket was not indexed to another room.

