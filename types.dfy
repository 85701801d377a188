/** The records the session coordinator keeps (`Peer`, `Room`), the media
    engine's objects it holds on to, and what the handlers send back.

    Engine objects (routers, transports, producers, consumers) are known by
    the id the engine gave them; whether one has been closed is engine state,
    kept by the registry (see `Signaling.SessionRegistry.closed`). */
module Types {
  import opened JsMap

  datatype Option<T> = None | Some(value: T)

  /** A media kind; the engine refuses any other value at `produce`. */
  datatype Kind = Audio | Video

  /** A router: one per room, and what its RTP capabilities are read from. */
  datatype Router = Router(id: nat)

  /** A WebRTC transport, publish or subscribe direction. */
  datatype Transport = Transport(id: nat)

  /** A published track, created on the transport `transportId`. */
  datatype Producer = Producer(id: nat, kind: Kind, transportId: nat)

  /** A subscription to the producer `producerId`, created on `transportId`. */
  datatype Consumer = Consumer(id: nat, producerId: nat, kind: Kind, paused: bool, transportId: nat)

  /** Server-side state of one joined socket. `uid` stands for the identity of
      the record itself: engine callbacks capture the record, not its key. */
  datatype Peer = Peer(
    roomId: string,
    uid: nat,
    producerTransport: Option<Transport>,
    consumerTransport: Option<Transport>,
    producer: Option<Producer>,
    consumers: OrderedMap<nat, Consumer>)

  /** A room owns one router and its peers, keyed by socket id. */
  datatype Room = Room(router: Router, peers: OrderedMap<string, Peer>)

  /** The record `joinRoom` stores for a socket: no transports, no producer,
      no consumers. */
  function NewPeer(roomId: string, uid: nat): (p: Peer)
    ensures p.roomId == roomId && p.uid == uid
    ensures p.producerTransport == None && p.consumerTransport == None && p.producer == None
    ensures p.consumers.entries == map[]
  {
    Peer(roomId, uid, None, None, None, Empty())
  }

  /** A room as `getOrCreateRoom` creates it: a fresh router, no peers. */
  function NewRoom(routerId: nat): (r: Room)
    ensures r.router.id == routerId && r.peers.entries == map[]
  {
    Room(Router(routerId), Empty())
  }

  predicate HasProducer(p: Peer, producerId: nat) {
    p.producer.Some? && p.producer.value.id == producerId
  }

  /** Server pushes. */
  datatype Push =
    | ConnectionSuccess(socketId: string)
    | NewProducer(producerId: nat)
    | ProducerClosed(producerId: nat)

  /** What the coordinator does to the outside world, in order. */
  datatype Effect =
    | Emit(to: set<string>, push: Push)   // a push to each socket in `to`
    | Close(objectId: nat)                // a close() call on an engine object
    | ConnectCall(transportId: nat)       // transport.connect({ dtlsParameters })

  /** The error replies, each named after the text it carries. */
  datatype Failure =
    | NotInARoom           // "Not in a room"
    | NoProducerTransport  // "No producer transport"
    | NotReadyToConsume    // "Not ready to consume"
    | ProducerNotFound     // "Producer not found"
    | CannotConsume        // "Cannot consume"
    | FailedToJoinRoom     // "Failed to join room"
    | EngineError          // an exception thrown by the engine, passed on as is

  /** What a handler hands its callback: a value, an error, or nothing at all. */
  datatype Reply<T> = Ok(value: T) | Err(failure: Failure) | NoReply

  /** `joinRoom`'s reply; the router stands for its RTP capabilities. */
  datatype Joined = Joined(routerRtpCapabilities: nat, existingProducers: seq<nat>)

  /** `consumeMedia`'s reply. */
  datatype ConsumerParams = ConsumerParams(producerId: nat, id: nat, kind: Kind)

  /** The client's RTP capabilities, an opaque document. */
  type RtpCapabilities = string
}
