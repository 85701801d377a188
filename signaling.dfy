/** The signalling handlers of one server process, over the directory of
    rooms and peers they share. Each handler runs as one atomic step. The
    media engine's answers (whether a router, transport, producer or consumer
    could be created, whether a producer can be consumed) are parameters;
    the ids it hands out come from `nextId`. */
module Signaling {
  import opened Types
  import opened JsMap
  import opened Rooms
  import opened Scans

  /** Resuming leaves every consumer under the key it was stored at. */
  lemma ResumeKeepsWellFormed(p: Peer, consumerId: nat, closed: set<nat>)
    requires PeerWellFormed(p)
    ensures PeerWellFormed(p.(consumers := ResumeMatching(p.consumers, consumerId, closed)))
  {
  }

  /** The objects registered in `watched` as created on transport `t`. */
  function CreatedOn(watched: map<nat, nat>, t: nat): (objects: set<nat>)
    ensures forall o :: o in objects <==> o in watched && watched[o] == t
  {
    set o | o in watched && watched[o] == t
  }

  /** Registering a fresh object on `t` adds it and keeps every object
      registered before, so a replaced producer or consumer is still closed
      with its transport; other transports are not affected. */
  lemma CreatedOnRegister(watched: map<nat, nat>, id: nat, t: nat, u: nat)
    requires id !in watched
    ensures CreatedOn(watched[id := t], u) == if u == t then CreatedOn(watched, u) + {id} else CreatedOn(watched, u)
  {
  }

  /** What closing a peer's transports takes with it: every producer and
      consumer created on either of them, held or replaced, whose
      "transportclose" handler calls close(). */
  function TransportCascade(watched: map<nat, nat>, p: Peer): (objects: set<nat>)
    ensures forall o :: o in objects <==>
      || (p.producerTransport.Some? && o in CreatedOn(watched, p.producerTransport.value.id))
      || (p.consumerTransport.Some? && o in CreatedOn(watched, p.consumerTransport.value.id))
  {
    (if p.producerTransport.Some? then CreatedOn(watched, p.producerTransport.value.id) else {})
    + (if p.consumerTransport.Some? then CreatedOn(watched, p.consumerTransport.value.id) else {})
  }

  class SessionRegistry {
    /** `rooms`: room id to room. */
    var rooms: map<string, Room>
    /** `peerRooms`: socket id to room id. */
    var peerRooms: map<string, string>
    /** The socket.io rooms: room name to the connected sockets that joined it. */
    var channels: map<string, set<string>>
    /** The engine objects whose close() has taken effect. */
    var closed: set<nat>
    /** The next id the engine hands out. */
    var nextId: nat
    /** Pushes, close() and connect() calls, in the order they were made. */
    var effects: seq<Effect>
    /** The producers and consumers whose "transportclose" handler is
        registered, with the transport each was created on. The handlers stay
        registered after the registry drops or replaces the object. */
    var watched: map<nat, nat>

    ghost predicate Valid()
      reads this`rooms, this`peerRooms, this`channels
    {
      Rooms.Valid(rooms, peerRooms, channels)
    }

    ghost predicate Coherent()
      reads this`rooms, this`peerRooms, this`channels
    {
      Rooms.Coherent(rooms, peerRooms, channels)
    }

    constructor ()
      ensures Valid() && Coherent()
      ensures rooms == map[] && peerRooms == map[] && channels == map[]
      ensures closed == {} && nextId == 0 && effects == [] && watched == map[]
    {
      rooms, peerRooms, channels := map[], map[], map[];
      closed, nextId, effects, watched := {}, 0, [], map[];
    }

    /** A new id: the engine's ids for its objects and the `uid`s of peer
        records share this one counter. */
    method FreshId() returns (id: nat)
      modifies this`nextId
      ensures id == old(nextId) && nextId == old(nextId) + 1
    {
      id := nextId;
      nextId := nextId + 1;
    }

    method Send(to: set<string>, push: Push)
      modifies this`effects
      ensures effects == old(effects) + [Emit(to, push)]
    {
      effects := effects + [Emit(to, push)];
    }

    method CloseObject(id: nat)
      modifies this`effects, this`closed
      ensures effects == old(effects) + [Close(id)]
      ensures closed == old(closed) + {id}
    {
      effects := effects + [Close(id)];
      closed := closed + {id};
    }

    /** close() on a transport: the engine closes every producer and consumer
        created on it in the same step, and their "transportclose" handlers
        call close() on them. */
    method CloseTransport(id: nat)
      modifies this`effects, this`closed
      ensures effects == old(effects) + [Close(id)]
      ensures closed == old(closed) + {id} + CreatedOn(watched, id)
    {
      CloseObject(id);
      closed := closed + CreatedOn(watched, id);
    }

    /** `io.on("connection")`: the socket is told its own id. */
    method OnConnection(socketId: string)
      modifies this`effects
      ensures effects == old(effects) + [Emit({socketId}, ConnectionSuccess(socketId))]
    {
      Send({socketId}, ConnectionSuccess(socketId));
    }

    /** `getOrCreateRoom`: the stored room, or a new one with a fresh router
        and no peers, stored under `roomId`. When the router cannot be
        created nothing is stored. */
    method GetOrCreateRoom(roomId: string, routerFails: bool) returns (room: Option<Room>)
      modifies this`rooms, this`nextId
      ensures roomId in old(rooms) ==>
        room == Some(old(rooms)[roomId]) && rooms == old(rooms) && nextId == old(nextId)
      ensures roomId !in old(rooms) && routerFails ==>
        room == None && rooms == old(rooms) && nextId == old(nextId)
      ensures roomId !in old(rooms) && !routerFails ==>
        room == Some(NewRoom(old(nextId))) && rooms == old(rooms)[roomId := room.value] && nextId == old(nextId) + 1
      ensures room.Some? ==> roomId in rooms && rooms[roomId] == room.value
    {
      room := Get(rooms, roomId);
      if room.None? && !routerFails {
        var routerId := FreshId();
        room := Some(NewRoom(routerId));
        rooms := rooms[roomId := room.value];
      }
    }

    /** The part of `joinRoom` after the room is found: store a new peer
        record for the socket in the room, index the socket to the room and
        join the socket.io room. `before` is the directory as the handler
        found it; the room may have just been created. */
    method AddPeer(socketId: string, roomId: string, base: Room, ghost before: map<string, Room>) returns (room: Room)
      requires Rooms.Valid(before, peerRooms, channels)
      requires JoinBase(before, roomId, base)
      requires rooms == before[roomId := base]
      modifies this`rooms, this`peerRooms, this`channels, this`nextId
      ensures room == base.(peers := Set(base.peers, socketId, NewPeer(roomId, old(nextId))))
      ensures nextId == old(nextId) + 1
      ensures rooms == WithJoined(before, roomId, base, socketId, NewPeer(roomId, old(nextId)))
      ensures peerRooms == old(peerRooms)[socketId := roomId]
      ensures channels == old(channels)[roomId := Channel(old(channels), roomId) + {socketId}]
      ensures Valid()
      ensures Rooms.Coherent(before, old(peerRooms), old(channels)) && roomId != ""
              && (socketId in old(peerRooms) ==> old(peerRooms)[socketId] == roomId) ==>
        Coherent()
    {
      var uid := FreshId();
      var peer := NewPeer(roomId, uid);
      room := base.(peers := Set(base.peers, socketId, peer));
      rooms := rooms[roomId := room];
      assert rooms == WithJoined(before, roomId, base, socketId, peer) by {
        StoreThenJoin(before, roomId, base, socketId, peer);
      }
      peerRooms := peerRooms[socketId := roomId];
      channels := channels[roomId := Channel(channels, roomId) + {socketId}];
      assert Valid() by {
        JoinKeepsValid(before, old(peerRooms), old(channels), roomId, base, socketId, uid);
      }
      if Rooms.Coherent(before, old(peerRooms), old(channels)) && roomId != ""
         && (socketId in old(peerRooms) ==> old(peerRooms)[socketId] == roomId) {
        assert Coherent() by {
          JoinKeepsValid(before, old(peerRooms), old(channels), roomId, base, socketId, uid);
        }
      }
    }

    /** `joinRoom`: find or create the room, add the peer, and reply with the
        router's capabilities and the other peers' producers. */
    method JoinRoom(socketId: string, roomId: string, routerFails: bool) returns (reply: Reply<Joined>)
      requires Valid()
      modifies this`rooms, this`peerRooms, this`channels, this`nextId
      ensures Valid()
      ensures roomId !in old(rooms) && routerFails ==>
        && reply == Err(FailedToJoinRoom)
        && rooms == old(rooms) && peerRooms == old(peerRooms) && channels == old(channels) && nextId == old(nextId)
      ensures roomId in old(rooms) || !routerFails ==>
        var base := if roomId in old(rooms) then old(rooms)[roomId] else NewRoom(old(nextId));
        var uid := if roomId in old(rooms) then old(nextId) else old(nextId) + 1;
        && nextId == uid + 1
        && rooms == WithJoined(old(rooms), roomId, base, socketId, NewPeer(roomId, uid))
        && peerRooms == old(peerRooms)[socketId := roomId]
        && channels == old(channels)[roomId := Channel(old(channels), roomId) + {socketId}]
        && reply == Ok(Joined(base.router.id, ExistingProducers(base.peers, socketId)))
      // every handler keeps the two maps in agreement, except a join that moves a
      // socket from another room and a join with room id ""
      ensures old(Coherent()) && roomId != "" && (socketId in old(peerRooms) ==> old(peerRooms)[socketId] == roomId) ==>
        Coherent()
    {
      var found := GetOrCreateRoom(roomId, routerFails);
      if found.None? {
        reply := Err(FailedToJoinRoom);
        return;
      }
      var base := found.value;
      if roomId in old(rooms) {
        assert old(rooms)[roomId := base] == old(rooms);
      }
      ghost var uid := nextId;
      var room := AddPeer(socketId, roomId, base, old(rooms));
      var existing := CollectExistingProducers(room.peers, socketId);
      assert existing == ExistingProducers(base.peers, socketId) by {
        ExistingProducersIgnoresJoiner(base.peers, socketId, NewPeer(roomId, uid));
      }
      reply := Ok(Joined(room.router.id, existing));
    }

    /** `getRouterRtpCapabilities`: the router of the socket's room; no reply
        at all when the socket is not in a room. */
    function RouterRtpCapabilities(socketId: string): (caps: Option<nat>)
      reads this
      ensures caps.Some? <==> socketId in peerRooms && peerRooms[socketId] != "" && peerRooms[socketId] in rooms
      ensures caps.Some? ==> caps.value == rooms[peerRooms[socketId]].router.id
    {
      match RoomByPeerId(rooms, peerRooms, socketId)
      case None => None
      case Some(room) => Some(room.router.id)
    }

    /** Store the updated record of a peer found through the index. */
    method StorePeer(at: Located, socketId: string, peer: Peer)
      requires Valid()
      requires at.roomId in rooms && at.room == rooms[at.roomId] && socketId in at.room.peers.entries
      requires peer.roomId == at.roomId && PeerWellFormed(peer)
      modifies this`rooms
      ensures rooms == UpdatePeer(old(rooms), at, socketId, peer)
      ensures Valid()
      ensures old(Coherent()) ==> Coherent()
    {
      UpdatePeerKeepsValid(rooms, peerRooms, channels, at, socketId, peer);
      rooms := UpdatePeer(rooms, at, socketId, peer);
    }

    /** `createTransport`: a new transport on the room's router, stored in
        the publish slot when `sender` and in the subscribe slot otherwise.
        A transport already in that slot is dropped without being closed. */
    method CreateTransport(socketId: string, sender: bool, engineFails: bool) returns (reply: Reply<nat>)
      requires Valid()
      modifies this`rooms, this`nextId
      ensures Valid()
      ensures old(Coherent()) ==> Coherent()
      ensures PeerBySocket(old(rooms), old(peerRooms), socketId).None? ==>
        reply == Err(NotInARoom) && rooms == old(rooms) && nextId == old(nextId)
      ensures PeerBySocket(old(rooms), old(peerRooms), socketId).Some? && engineFails ==>
        reply == Err(EngineError) && rooms == old(rooms) && nextId == old(nextId)
      ensures PeerBySocket(old(rooms), old(peerRooms), socketId).Some? && !engineFails ==>
        var at := PeerBySocket(old(rooms), old(peerRooms), socketId).value;
        var t := Transport(old(nextId));
        var peer := if sender then at.peer.(producerTransport := Some(t)) else at.peer.(consumerTransport := Some(t));
        reply == Ok(t.id) && nextId == old(nextId) + 1 && rooms == UpdatePeer(old(rooms), at, socketId, peer)
    {
      var found := PeerBySocket(rooms, peerRooms, socketId);
      if found.None? {
        reply := Err(NotInARoom);
        return;
      }
      if engineFails {
        reply := Err(EngineError);
        return;
      }
      var at := found.value;
      var id := FreshId();
      var t := Transport(id);
      var peer := if sender then at.peer.(producerTransport := Some(t)) else at.peer.(consumerTransport := Some(t));
      LocatedWellFormed(rooms, peerRooms, channels, at, socketId);
      StorePeer(at, socketId, peer);
      reply := Ok(id);
    }

    /** `connectProducerTransport` (`producerSide`) and
        `connectConsumerTransport`: connect() the matching transport when the
        peer has one; otherwise do nothing. */
    method ConnectTransport(socketId: string, producerSide: bool)
      modifies this`effects
      ensures var at := PeerBySocket(rooms, peerRooms, socketId);
        var t := if at.None? then None
          else if producerSide then at.value.peer.producerTransport
          else at.value.peer.consumerTransport;
        effects == old(effects) + (if t.Some? then [ConnectCall(t.value.id)] else [])
    {
      var found := PeerBySocket(rooms, peerRooms, socketId);
      if found.Some? {
        var t := if producerSide then found.value.peer.producerTransport else found.value.peer.consumerTransport;
        if t.Some? {
          effects := effects + [ConnectCall(t.value.id)];
        }
      }
    }

    /** The success path of `transport-produce`: store a new producer on the
        peer's publish transport as its producer and tell the others. */
    method Produce(at: Located, socketId: string, kind: Kind) returns (id: nat)
      requires Valid()
      requires PeerBySocket(rooms, peerRooms, socketId) == Some(at) && at.peer.producerTransport.Some?
      modifies this`rooms, this`nextId, this`effects, this`watched
      ensures Valid()
      ensures old(Coherent()) ==> Coherent()
      ensures id == old(nextId) && nextId == old(nextId) + 1
      ensures watched == old(watched)[id := at.peer.producerTransport.value.id]
      ensures rooms == UpdatePeer(old(rooms), at, socketId,
                                  at.peer.(producer := Some(Producer(id, kind, at.peer.producerTransport.value.id))))
      ensures effects == old(effects) + [Emit(Others(channels, at.peer.roomId, socketId), NewProducer(id))]
    {
      LocatedWellFormed(rooms, peerRooms, channels, at, socketId);
      id := FreshId();
      var p := Producer(id, kind, at.peer.producerTransport.value.id);
      var peer := at.peer.(producer := Some(p));
      watched := watched[id := p.transportId];
      Send(Others(channels, at.peer.roomId, socketId), NewProducer(id));
      StorePeer(at, socketId, peer);
    }

    /** `transport-produce`: a new producer on the peer's publish transport
        becomes its producer (a previous one is dropped without being closed),
        and everyone else in the room is told. */
    method TransportProduce(socketId: string, kind: Kind, engineFails: bool) returns (reply: Reply<nat>)
      requires Valid()
      modifies this`rooms, this`nextId, this`effects, this`watched
      ensures Valid()
      ensures old(Coherent()) ==> Coherent()
      ensures var at := PeerBySocket(old(rooms), old(peerRooms), socketId);
        at.None? || at.value.peer.producerTransport.None? ==>
        && reply == Err(NoProducerTransport)
        && rooms == old(rooms) && nextId == old(nextId) && effects == old(effects) && watched == old(watched)
      // the engine's produce() rejecting leaves the callback unanswered
      ensures var at := PeerBySocket(old(rooms), old(peerRooms), socketId);
        at.Some? && at.value.peer.producerTransport.Some? && engineFails ==>
        && reply == NoReply
        && rooms == old(rooms) && nextId == old(nextId) && effects == old(effects) && watched == old(watched)
      ensures var at := PeerBySocket(old(rooms), old(peerRooms), socketId);
        at.Some? && at.value.peer.producerTransport.Some? && !engineFails ==>
        var p := Producer(old(nextId), kind, at.value.peer.producerTransport.value.id);
        && reply == Ok(p.id)
        && nextId == old(nextId) + 1
        && rooms == UpdatePeer(old(rooms), at.value, socketId, at.value.peer.(producer := Some(p)))
        && effects == old(effects) + [Emit(Others(channels, at.value.peer.roomId, socketId), NewProducer(p.id))]
        && watched == old(watched)[p.id := p.transportId]
    {
      var found := PeerBySocket(rooms, peerRooms, socketId);
      if found.None? || found.value.peer.producerTransport.None? {
        reply := Err(NoProducerTransport);
        return;
      }
      if engineFails {
        reply := NoReply;
        return;
      }
      var id := Produce(found.value, socketId, kind);
      reply := Ok(id);
    }

    /** The success path of `consumeMedia`: a fresh consumer on the peer's
        subscribe transport, paused exactly when it carries video, stored
        under the producer's id, its "transportclose" handler registered. */
    method Consume(at: Located, socketId: string, producerId: nat, kind: Kind) returns (c: Consumer)
      requires Valid()
      requires PeerBySocket(rooms, peerRooms, socketId) == Some(at) && at.peer.consumerTransport.Some?
      modifies this`rooms, this`nextId, this`watched
      ensures Valid()
      ensures old(Coherent()) ==> Coherent()
      ensures c == Consumer(old(nextId), producerId, kind, kind == Video, at.peer.consumerTransport.value.id)
      ensures nextId == old(nextId) + 1
      ensures watched == old(watched)[c.id := c.transportId]
      ensures rooms == UpdatePeer(old(rooms), at, socketId, at.peer.(consumers := Set(at.peer.consumers, producerId, c)))
    {
      var id := FreshId();
      c := Consumer(id, producerId, kind, kind == Video, at.peer.consumerTransport.value.id);
      watched := watched[id := c.transportId];
      var peer := at.peer.(consumers := Set(at.peer.consumers, producerId, c));
      LocatedWellFormed(rooms, peerRooms, channels, at, socketId);
      StoreConsumerWellFormed(at.peer, c);
      StorePeer(at, socketId, peer);
    }

    /** `consumeMedia`: the guards in order (ready to consume, producer in
        the room, router can consume), then a consumer on the peer's
        subscribe transport, paused exactly when it carries video, stored
        under the producer's id. */
    method ConsumeMedia(socketId: string, rtpCapabilities: RtpCapabilities, producerId: nat,
                        canConsume: (nat, nat, RtpCapabilities) -> bool, engineFails: bool)
      returns (reply: Reply<ConsumerParams>)
      requires Valid()
      modifies this`rooms, this`nextId, this`watched
      ensures Valid()
      ensures old(Coherent()) ==> Coherent()
      ensures reply != NoReply
      ensures var at := PeerBySocket(old(rooms), old(peerRooms), socketId);
        var ready := at.Some? && at.value.peer.consumerTransport.Some?;
        var target := if at.Some? then TargetProducer(at.value.room.peers, producerId) else None;
        && (!ready ==> reply == Err(NotReadyToConsume))
        && (ready && target.None? ==> reply == Err(ProducerNotFound))
        && (ready && target.Some? && !canConsume(at.value.room.router.id, producerId, rtpCapabilities) ==>
              reply == Err(CannotConsume))
        && (ready && target.Some? && canConsume(at.value.room.router.id, producerId, rtpCapabilities) && engineFails ==>
              reply == Err(EngineError))
        && (ready && target.Some? && canConsume(at.value.room.router.id, producerId, rtpCapabilities) && !engineFails ==>
              reply.Ok?)
        && (reply.Err? ==> rooms == old(rooms) && nextId == old(nextId) && watched == old(watched))
        && (reply.Ok? ==>
              && ready && target.Some? && !engineFails
              && var kind := target.value.kind;
                 var c := Consumer(old(nextId), producerId, kind, kind == Video, at.value.peer.consumerTransport.value.id);
                 && reply == Ok(ConsumerParams(producerId, c.id, kind))
                 && nextId == old(nextId) + 1
                 && watched == old(watched)[c.id := c.transportId]
                 && rooms == UpdatePeer(old(rooms), at.value, socketId,
                                        at.value.peer.(consumers := Set(at.value.peer.consumers, producerId, c))))
    {
      var found := PeerBySocket(rooms, peerRooms, socketId);
      if found.None? || found.value.peer.consumerTransport.None? {
        reply := Err(NotReadyToConsume);
        return;
      }
      var at := found.value;
      var target := FindProducer(at.room.peers, producerId);
      if target.None? {
        reply := Err(ProducerNotFound);
        return;
      }
      if !canConsume(at.room.router.id, producerId, rtpCapabilities) {
        reply := Err(CannotConsume);
        return;
      }
      if engineFails {
        reply := Err(EngineError);
        return;
      }
      var c := Consume(at, socketId, producerId, target.value.kind);
      reply := Ok(ConsumerParams(producerId, c.id, c.kind));
    }

    /** `resumePausedConsumer`: resume the peer's open consumers whose id is
        `consumerId`; nothing happens, and nothing is replied, otherwise. */
    method ResumePausedConsumer(socketId: string, consumerId: nat)
      requires Valid()
      modifies this`rooms
      ensures Valid()
      ensures old(Coherent()) ==> Coherent()
      ensures var at := PeerBySocket(old(rooms), old(peerRooms), socketId);
        && (at.None? ==> rooms == old(rooms))
        && (at.Some? ==> rooms == UpdatePeer(old(rooms), at.value, socketId,
              at.value.peer.(consumers := ResumeMatching(at.value.peer.consumers, consumerId, closed))))
        && (at.Some? && (forall k :: k in at.value.peer.consumers.entries ==> at.value.peer.consumers.entries[k].id != consumerId) ==>
              rooms == old(rooms))
    {
      var found := PeerBySocket(rooms, peerRooms, socketId);
      if found.Some? {
        var at := found.value;
        var resumed := ResumeEach(at.peer.consumers, consumerId, closed);
        var peer := at.peer.(consumers := resumed);
        LocatedWellFormed(rooms, peerRooms, channels, at, socketId);
        ResumeKeepsWellFormed(at.peer, consumerId, closed);
        if forall k :: k in at.peer.consumers.entries ==> at.peer.consumers.entries[k].id != consumerId {
          ResumeUnknownIsNoop(at.peer.consumers, consumerId, closed);
          SetUnchanged(at.room.peers, socketId);
        }
        StorePeer(at, socketId, peer);
      }
    }

    /** The first part of what `disconnect` does to a found peer: the push
        about its producer, then the close() calls on the producer and the
        transports. */
    method CloseHandles(p: Peer, others: set<string>)
      modifies this`effects, this`closed
      ensures effects == old(effects) + HandleEffects(p, others)
      ensures closed == old(closed) + CloseTargets(HandleEffects(p, others)) + TransportCascade(watched, p)
    {
      if p.producer.Some? {
        Send(others, ProducerClosed(p.producer.value.id));
        CloseObject(p.producer.value.id);
      }
      if p.producerTransport.Some? {
        CloseTransport(p.producerTransport.value.id);
      }
      if p.consumerTransport.Some? {
        CloseTransport(p.consumerTransport.value.id);
      }
      HandleTargets(p, others);
    }

    /** `peer.consumers.forEach((consumer) => consumer.close())`. */
    method CloseConsumers(m: OrderedMap<nat, Consumer>)
      modifies this`effects, this`closed
      ensures effects == old(effects) + CloseEach(m.keys, m.entries)
      ensures closed == old(closed) + CloseTargets(CloseEach(m.keys, m.entries))
    {
      var calls := CloseCalls(m);
      effects := effects + calls;
      closed := closed + CloseTargets(calls);
    }

    /** What `disconnect` does to a found peer's objects, in order. */
    method ClosePeer(p: Peer, others: set<string>)
      modifies this`effects, this`closed
      ensures effects == old(effects) + DisconnectEffects(p, others)
      ensures closed == old(closed) + CloseTargets(DisconnectEffects(p, others)) + TransportCascade(watched, p)
    {
      CloseHandles(p, others);
      CloseConsumers(p.consumers);
      ghost var h := HandleEffects(p, others);
      ghost var d := CloseEach(p.consumers.keys, p.consumers.entries);
      assert (old(effects) + h) + d == old(effects) + (h + d);
      CloseTargetsAppend(h, d);
    }

    /** `disconnect` for a peer found in its room: close its objects, take it
        out of the room, and close the router and drop the room once nobody
        is left. */
    method RemovePeer(at: Located, socketId: string, others: set<string>)
      requires at.roomId in rooms && at.room == rooms[at.roomId] && socketId in at.room.peers.entries
      modifies this`rooms, this`closed, this`effects
      ensures rooms == WithoutPeer(old(rooms), at.roomId, socketId)
      ensures var done := DisconnectEffects(at.room.peers.entries[socketId], others);
        var cascade := TransportCascade(watched, at.room.peers.entries[socketId]);
        && (at.roomId in rooms ==> effects == old(effects) + done && closed == old(closed) + CloseTargets(done) + cascade)
        && (at.roomId !in rooms ==>
              effects == old(effects) + done + [Close(at.room.router.id)]
              && closed == old(closed) + CloseTargets(done) + cascade + {at.room.router.id})
    {
      var room := at.room;
      ClosePeer(room.peers.entries[socketId], others);
      var left := Delete(room.peers, socketId);
      if IsEmpty(left) {
        CloseObject(room.router.id);
        rooms := rooms - {at.roomId};
      } else {
        rooms := rooms[at.roomId := room.(peers := left)];
      }
    }

    /** The part of `disconnect` that runs for a socket indexed to a non-empty
        room id, once socket.io has taken it out of its rooms (`before` is the
        channel table from before that). */
    method Depart(socketId: string, ghost before: map<string, set<string>>)
      requires Rooms.Valid(rooms, peerRooms, before) && channels == LeaveAll(before, socketId)
      requires socketId in peerRooms && peerRooms[socketId] != ""
      modifies this`rooms, this`peerRooms, this`closed, this`effects
      ensures Valid()
      ensures Rooms.Coherent(old(rooms), old(peerRooms), before) ==> Coherent()
      ensures var roomId := old(peerRooms)[socketId];
        var room := old(rooms)[roomId];
        var done := DisconnectEffects(room.peers.entries[socketId], Others(channels, roomId, socketId));
        var last := [Close(room.router.id)];
        var cascade := TransportCascade(watched, room.peers.entries[socketId]);
        && peerRooms == old(peerRooms) - {socketId}
        && rooms == WithoutPeer(old(rooms), roomId, socketId)
        && (roomId in rooms ==> effects == old(effects) + done && closed == old(closed) + CloseTargets(done) + cascade)
        && (roomId !in rooms ==> effects == old(effects) + done + last && closed == old(closed) + CloseTargets(done) + cascade + {room.router.id})
    {
      var roomId := peerRooms[socketId];
      // under the invariant the room and the peer are both there
      LocatedWhenIndexed(rooms, peerRooms, before, socketId);
      var at := PeerBySocket(rooms, peerRooms, socketId).value;
      assert at.roomId == roomId && at.room == rooms[roomId];
      LeaveKeepsValid(rooms, peerRooms, before, socketId);
      peerRooms := peerRooms - {socketId};
      RemovePeer(at, socketId, Others(channels, roomId, socketId));
    }

    /** `disconnect`: socket.io first takes the socket out of its rooms. Then,
        for a socket indexed to a non-empty room id, the room's other peers
        are told its producer is gone before it is closed, its transports and
        consumers are closed, the peer and the index entry are removed, and
        the room's router is closed and the room removed once nobody is left. */
    method Disconnect(socketId: string)
      requires Valid()
      modifies this`rooms, this`peerRooms, this`channels, this`closed, this`effects
      ensures Valid()
      ensures old(Coherent()) ==> Coherent()
      ensures channels == LeaveAll(old(channels), socketId)
      ensures socketId in peerRooms ==> peerRooms[socketId] == ""
      ensures socketId !in old(peerRooms) || old(peerRooms)[socketId] == "" ==>
        rooms == old(rooms) && peerRooms == old(peerRooms) && closed == old(closed) && effects == old(effects)
      ensures socketId in old(peerRooms) && old(peerRooms)[socketId] != "" ==>
        var roomId := old(peerRooms)[socketId];
        var room := old(rooms)[roomId];
        var done := DisconnectEffects(room.peers.entries[socketId], Others(channels, roomId, socketId));
        var last := [Close(room.router.id)];
        var cascade := TransportCascade(watched, room.peers.entries[socketId]);
        && peerRooms == old(peerRooms) - {socketId}
        && rooms == WithoutPeer(old(rooms), roomId, socketId)
        && (roomId in rooms ==> effects == old(effects) + done && closed == old(closed) + CloseTargets(done) + cascade)
        && (roomId !in rooms ==> effects == old(effects) + done + last && closed == old(closed) + CloseTargets(done) + cascade + {room.router.id})
    {
      channels := LeaveAll(channels, socketId);
      var entry := Get(peerRooms, socketId);
      if entry.Some? && entry.value != "" {
        Depart(socketId, old(channels));
      }
    }

    /** Two `disconnect`s of one socket do what one does: the first leaves no
        index entry with a non-empty room id, so the second changes nothing. */
    method DisconnectTwice(socketId: string)
      requires Valid()
      modifies this`rooms, this`peerRooms, this`channels, this`closed, this`effects
      ensures Valid()
      ensures channels == LeaveAll(old(channels), socketId)
      ensures socketId !in old(peerRooms) || old(peerRooms)[socketId] == "" ==>
        rooms == old(rooms) && peerRooms == old(peerRooms) && closed == old(closed) && effects == old(effects)
      ensures socketId in old(peerRooms) && old(peerRooms)[socketId] != "" ==>
        var roomId := old(peerRooms)[socketId];
        var room := old(rooms)[roomId];
        var done := DisconnectEffects(room.peers.entries[socketId], Others(channels, roomId, socketId));
        var last := [Close(room.router.id)];
        var cascade := TransportCascade(watched, room.peers.entries[socketId]);
        && peerRooms == old(peerRooms) - {socketId}
        && rooms == WithoutPeer(old(rooms), roomId, socketId)
        && (roomId in rooms ==> effects == old(effects) + done && closed == old(closed) + CloseTargets(done) + cascade)
        && (roomId !in rooms ==> effects == old(effects) + done + last && closed == old(closed) + CloseTargets(done) + cascade + {room.router.id})
    {
      Disconnect(socketId);
      Disconnect(socketId);
      LeaveAllIdempotent(old(channels), socketId);
    }

    /** A transport closed by the engine (its DTLS state became "closed"):
        it is closed, and so is every producer and consumer created on it,
        whose "transportclose" handler calls close(), whether the registry
        still holds the object or has replaced it. */
    method OnTransportClosed(transportId: nat)
      modifies this`closed, this`effects
      ensures effects == old(effects) + [Close(transportId)]
      ensures closed == old(closed) + {transportId} + CreatedOn(watched, transportId)
    {
      CloseTransport(transportId);
    }

    /** A consumer's "producerclose" event: the consumer is closed and its
        entry removed from the consumers of the peer record that created it,
        which is the record `peerUid` stored at `roomId`/`socketId` if it is
        still there. Nothing else changes. */
    method OnProducerClosed(roomId: string, socketId: string, peerUid: nat, producerId: nat, consumerId: nat)
      requires Valid()
      modifies this`rooms, this`closed, this`effects
      ensures Valid()
      ensures old(Coherent()) ==> Coherent()
      ensures effects == old(effects) + [Close(consumerId)]
      ensures closed == old(closed) + {consumerId}
      ensures roomId in old(rooms) && socketId in old(rooms)[roomId].peers.entries
              && old(rooms)[roomId].peers.entries[socketId].uid == peerUid ==>
        var room := old(rooms)[roomId];
        var peer := room.peers.entries[socketId];
        rooms == UpdatePeer(old(rooms), Located(roomId, room, peer), socketId,
                            peer.(consumers := Delete(peer.consumers, producerId)))
      ensures !(roomId in old(rooms) && socketId in old(rooms)[roomId].peers.entries
                && old(rooms)[roomId].peers.entries[socketId].uid == peerUid) ==>
        rooms == old(rooms)
    {
      CloseObject(consumerId);
      if roomId in rooms && socketId in rooms[roomId].peers.entries && rooms[roomId].peers.entries[socketId].uid == peerUid {
        var room := rooms[roomId];
        var peer := room.peers.entries[socketId];
        var at := Located(roomId, room, peer);
        var updated := peer.(consumers := Delete(peer.consumers, producerId));
        DropConsumerWellFormed(peer, producerId);
        StorePeer(at, socketId, updated);
      }
    }
  }
}
