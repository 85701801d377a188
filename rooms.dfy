/** The process-wide directory: `rooms` (room id to room) and its reverse
    index `peerRooms` (socket id to room id), plus `channels`, the socket.io
    rooms each socket has joined (what `socket.to(roomId)` reaches).

    Everything here is stated on values, so that the registry class and the
    lemmas share one definition. */
module Rooms {
  import opened Types
  import opened JsMap

  /** `map.get(key)`. */
  function Get<K, V>(m: map<K, V>, key: K): (r: Option<V>)
    ensures r.Some? <==> key in m
    ensures r.Some? ==> r.value == m[key]
  {
    if key in m then Some(m[key]) else None
  }

  /** `getRoomByPeerId`: the room the socket's reverse-index entry names.
      The empty room id counts as no entry, because the lookup tests the id
      for truthiness. */
  function RoomByPeerId(rooms: map<string, Room>, peerRooms: map<string, string>, peerId: string): (r: Option<Room>)
    ensures r.Some? <==> peerId in peerRooms && peerRooms[peerId] != "" && peerRooms[peerId] in rooms
    ensures r.Some? ==> r.value == rooms[peerRooms[peerId]]
  {
    var roomId := Get(peerRooms, peerId);
    if roomId.Some? && roomId.value != "" then Get(rooms, roomId.value) else None
  }

  /** A peer found through the reverse index, with the key of its room. */
  datatype Located = Located(roomId: string, room: Room, peer: Peer)

  /** `room?.peers.get(socket.id)` after `getRoomByPeerId(socket.id)`. */
  function PeerBySocket(rooms: map<string, Room>, peerRooms: map<string, string>, socketId: string): (r: Option<Located>)
    ensures r.Some? <==>
      RoomByPeerId(rooms, peerRooms, socketId).Some? && socketId in rooms[peerRooms[socketId]].peers.entries
    ensures r.Some? ==>
      && r.value.roomId == peerRooms[socketId]
      && r.value.room == rooms[r.value.roomId]
      && r.value.peer == r.value.room.peers.entries[socketId]
  {
    match RoomByPeerId(rooms, peerRooms, socketId)
    case None => None
    case Some(room) =>
      match Get(room.peers.entries, socketId)
      case None => None
      case Some(peer) => Some(Located(peerRooms[socketId], room, peer))
  }

  /** The socket ids listed in room `roomId`, none when there is no such room. */
  function Members(rooms: map<string, Room>, roomId: string): set<string> {
    if roomId in rooms then rooms[roomId].peers.entries.Keys else {}
  }

  /** The sockets currently joined to the socket.io room `roomId`. */
  function Channel(channels: map<string, set<string>>, roomId: string): set<string> {
    if roomId in channels then channels[roomId] else {}
  }

  /** `socket.to(roomId)`: everyone joined to `roomId` except the sender. */
  function Others(channels: map<string, set<string>>, roomId: string, sender: string): (to: set<string>)
    ensures sender !in to
    ensures forall s :: s in to <==> s in Channel(channels, roomId) && s != sender
  {
    Channel(channels, roomId) - {sender}
  }

  /** socket.io takes a disconnecting socket out of every room it joined. */
  function LeaveAll(channels: map<string, set<string>>, socketId: string): (r: map<string, set<string>>)
    ensures r.Keys == channels.Keys
    ensures forall roomId :: roomId in r ==> r[roomId] == channels[roomId] - {socketId}
  {
    map roomId | roomId in channels :: channels[roomId] - {socketId}
  }

  /** A consumer is stored under the id of the producer it consumes. */
  ghost predicate PeerWellFormed(p: Peer) {
    forall k :: k in p.consumers.entries ==> p.consumers.entries[k].producerId == k
  }

  /** Storing a consumer under its producer's id keeps a peer well formed. */
  lemma StoreConsumerWellFormed(p: Peer, c: Consumer)
    requires PeerWellFormed(p)
    ensures PeerWellFormed(p.(consumers := Set(p.consumers, c.producerId, c)))
  {
  }

  /** So does removing a consumer. */
  lemma DropConsumerWellFormed(p: Peer, k: nat)
    requires PeerWellFormed(p)
    ensures PeerWellFormed(p.(consumers := Delete(p.consumers, k)))
  {
  }

  /** Each reverse-index entry names a room that lists the socket. */
  ghost predicate IndexInRooms(rooms: map<string, Room>, peerRooms: map<string, string>) {
    forall s :: s in peerRooms ==> peerRooms[s] in rooms && s in rooms[peerRooms[s]].peers.entries
  }

  /** No room is left without peers. */
  ghost predicate NoEmptyRoom(rooms: map<string, Room>) {
    forall r :: r in rooms ==> rooms[r].peers.entries != map[]
  }

  /** A peer records the room it is listed in, and its consumers are keyed
      by producer id. */
  ghost predicate PeersWellFormed(rooms: map<string, Room>) {
    forall r, s :: r in rooms && s in rooms[r].peers.entries ==>
      rooms[r].peers.entries[s].roomId == r && PeerWellFormed(rooms[r].peers.entries[s])
  }

  /** A socket.io room only holds sockets the room of that name lists. */
  ghost predicate ChannelsWithinRooms(rooms: map<string, Room>, channels: map<string, set<string>>) {
    forall r :: r in channels ==> channels[r] <= Members(rooms, r)
  }

  /** What every handler keeps, whatever the clients send. */
  ghost predicate Valid(rooms: map<string, Room>, peerRooms: map<string, string>, channels: map<string, set<string>>) {
    && IndexInRooms(rooms, peerRooms)
    && NoEmptyRoom(rooms)
    && PeersWellFormed(rooms)
    && ChannelsWithinRooms(rooms, channels)
  }

  /** Every listed socket is indexed to the room listing it. */
  ghost predicate RoomsIndexed(rooms: map<string, Room>, peerRooms: map<string, string>) {
    forall r, s :: r in rooms && s in rooms[r].peers.entries ==> s in peerRooms && peerRooms[s] == r
  }

  /** No socket is indexed to the empty room id. */
  ghost predicate NoEmptyRoomId(peerRooms: map<string, string>) {
    forall s :: s in peerRooms ==> peerRooms[s] != ""
  }

  /** Each room's socket.io room holds exactly its peers. */
  ghost predicate ChannelsMatchRooms(rooms: map<string, Room>, channels: map<string, set<string>>) {
    forall r :: r in rooms ==> Channel(channels, r) == rooms[r].peers.entries.Keys
  }

  /** The two maps agree both ways. Only two kinds of `joinRoom` break this:
      one from a socket already in another room, and one with room id "". */
  ghost predicate Coherent(rooms: map<string, Room>, peerRooms: map<string, string>, channels: map<string, set<string>>) {
    && Valid(rooms, peerRooms, channels)
    && RoomsIndexed(rooms, peerRooms)
    && NoEmptyRoomId(peerRooms)
    && ChannelsMatchRooms(rooms, channels)
  }

  /** Under the invariant, an indexed socket with a non-empty room id is found. */
  lemma LocatedWhenIndexed(rooms: map<string, Room>, peerRooms: map<string, string>, channels: map<string, set<string>>, socketId: string)
    requires Valid(rooms, peerRooms, channels)
    requires socketId in peerRooms && peerRooms[socketId] != ""
    ensures PeerBySocket(rooms, peerRooms, socketId).Some?
    ensures PeerBySocket(rooms, peerRooms, socketId).value.peer.roomId == peerRooms[socketId]
  {
  }

  /** In a coherent directory a room exists exactly when some socket is
      indexed to it. */
  lemma RoomExistsIffIndexed(rooms: map<string, Room>, peerRooms: map<string, string>, channels: map<string, set<string>>, roomId: string)
    requires Coherent(rooms, peerRooms, channels)
    ensures roomId in rooms <==> exists s :: s in peerRooms && peerRooms[s] == roomId
  {
    if roomId in rooms {
      var peers := rooms[roomId].peers.entries;
      assert peers != map[];
      var s :| s in peers;
      assert s in peerRooms && peerRooms[s] == roomId;
    }
  }

  /** In a coherent directory `socket.to(roomId)` reaches exactly the room's
      other peers. */
  lemma CoherentBroadcast(rooms: map<string, Room>, peerRooms: map<string, string>, channels: map<string, set<string>>, roomId: string, sender: string)
    requires Coherent(rooms, peerRooms, channels)
    requires roomId in rooms
    ensures Others(channels, roomId, sender) == rooms[roomId].peers.entries.Keys - {sender}
  {
    assert Channel(channels, roomId) == rooms[roomId].peers.entries.Keys;
  }

  /** In a coherent directory a socket is listed by one room at most. */
  lemma CoherentSingleRoom(rooms: map<string, Room>, peerRooms: map<string, string>, channels: map<string, set<string>>, socketId: string, r1: string, r2: string)
    requires Coherent(rooms, peerRooms, channels)
    requires r1 in rooms && socketId in rooms[r1].peers.entries
    requires r2 in rooms && socketId in rooms[r2].peers.entries
    ensures r1 == r2
  {
    assert peerRooms[socketId] == r1;
    assert peerRooms[socketId] == r2;
  }

  /** Under the invariant alone a push reaches only peers of the room. */
  lemma BroadcastWithinRoom(rooms: map<string, Room>, peerRooms: map<string, string>, channels: map<string, set<string>>, roomId: string, sender: string)
    requires Valid(rooms, peerRooms, channels)
    ensures Others(channels, roomId, sender) <= Members(rooms, roomId) - {sender}
  {
  }

  /** Leaving twice is leaving once. */
  lemma LeaveAllIdempotent(channels: map<string, set<string>>, socketId: string)
    ensures LeaveAll(LeaveAll(channels, socketId), socketId) == LeaveAll(channels, socketId)
  {
    var once := LeaveAll(channels, socketId);
    var twice := LeaveAll(once, socketId);
    assert twice.Keys == once.Keys;
    forall roomId | roomId in once ensures twice[roomId] == once[roomId] {
      assert once[roomId] - {socketId} == once[roomId];
    }
  }

  // ---------------------------------------------------------------------
  // The directory updates the handlers make

  /** Store `peer` under `socketId` in the room it was found in; every other
      room and every other peer of that room stay as they are. */
  function UpdatePeer(rooms: map<string, Room>, at: Located, socketId: string, peer: Peer): (r: map<string, Room>)
    requires at.roomId in rooms && at.room == rooms[at.roomId] && socketId in at.room.peers.entries
    ensures r.Keys == rooms.Keys
    ensures forall x :: x in rooms && x != at.roomId ==> r[x] == rooms[x]
    ensures r[at.roomId].router == at.room.router
    ensures r[at.roomId].peers.keys == at.room.peers.keys
    ensures r[at.roomId].peers.entries == at.room.peers.entries[socketId := peer]
  {
    rooms[at.roomId := at.room.(peers := Set(at.room.peers, socketId, peer))]
  }

  /** Take `socketId` out of room `roomId`, and the room out of the directory
      when nobody is left in it. */
  function WithoutPeer(rooms: map<string, Room>, roomId: string, socketId: string): (r: map<string, Room>)
    requires roomId in rooms
    ensures roomId in r <==> rooms[roomId].peers.entries - {socketId} != map[]
    ensures roomId in r ==> r[roomId] == rooms[roomId].(peers := Delete(rooms[roomId].peers, socketId))
    ensures forall x :: x != roomId ==> (x in r <==> x in rooms) && (x in r ==> r[x] == rooms[x])
  {
    var left := Delete(rooms[roomId].peers, socketId);
    if IsEmpty(left) then rooms - {roomId} else rooms[roomId := rooms[roomId].(peers := left)]
  }

  /** The peer a handler finds through the index is listed there under that
      room id and is well formed. */
  lemma LocatedWellFormed(rooms: map<string, Room>, peerRooms: map<string, string>, channels: map<string, set<string>>,
                          at: Located, socketId: string)
    requires Valid(rooms, peerRooms, channels)
    requires PeerBySocket(rooms, peerRooms, socketId) == Some(at)
    ensures at.peer.roomId == at.roomId && PeerWellFormed(at.peer)
  {
  }

  /** The peer a handler finds through the index records that room id, and
      in a coherent directory `socket.to` that room reaches exactly its other
      peers, before and after the peer's record is replaced. */
  lemma LocatedRecipients(rooms: map<string, Room>, peerRooms: map<string, string>, channels: map<string, set<string>>,
                          at: Located, socketId: string, peer: Peer)
    requires Valid(rooms, peerRooms, channels)
    requires PeerBySocket(rooms, peerRooms, socketId) == Some(at)
    ensures at.peer.roomId == peerRooms[socketId] == at.roomId
    ensures PeerWellFormed(at.peer)
    ensures Coherent(rooms, peerRooms, channels) ==>
      Others(channels, at.roomId, socketId) == UpdatePeer(rooms, at, socketId, peer)[at.roomId].peers.entries.Keys - {socketId}
  {
    if Coherent(rooms, peerRooms, channels) {
      CoherentBroadcast(rooms, peerRooms, channels, at.roomId, socketId);
    }
  }

  /** The room `joinRoom` puts a socket into: the stored one, or a new empty
      one when the id is unknown. */
  ghost predicate JoinBase(rooms: map<string, Room>, roomId: string, base: Room) {
    if roomId in rooms then base == rooms[roomId] else base.peers.entries == map[]
  }

  /** The directory after `joinRoom` stored `peer` for `socketId`. */
  function WithJoined(rooms: map<string, Room>, roomId: string, base: Room, socketId: string, peer: Peer): map<string, Room> {
    rooms[roomId := base.(peers := Set(base.peers, socketId, peer))]
  }

  /** `getOrCreateRoom` stores the room and `joinRoom` then adds the peer to
      that same object: the directory ends as if the final room were stored. */
  lemma StoreThenJoin(rooms: map<string, Room>, roomId: string, base: Room, socketId: string, peer: Peer)
    ensures rooms[roomId := base][roomId := base.(peers := Set(base.peers, socketId, peer))]
         == WithJoined(rooms, roomId, base, socketId, peer)
  {
  }

  /** A join lists the socket in the joined room, under the new record, and
      changes no other room. */
  lemma JoinTouchesOnlyItsRoom(rooms: map<string, Room>, roomId: string, base: Room, socketId: string, peer: Peer)
    ensures var r := WithJoined(rooms, roomId, base, socketId, peer);
      && r.Keys == rooms.Keys + {roomId}
      && (forall x :: x in rooms && x != roomId ==> r[x] == rooms[x])
      && r[roomId].router == base.router
      && r[roomId].peers.entries == base.peers.entries[socketId := peer]
      && (forall s :: s in r[roomId].peers.entries <==> s == socketId || s in base.peers.entries)
  {
  }

  /** Storing a peer under a key already present keeps every room's key set. */
  lemma UpdatePeerMembers(rooms: map<string, Room>, at: Located, socketId: string, peer: Peer)
    requires at.roomId in rooms && at.room == rooms[at.roomId] && socketId in at.room.peers.entries
    ensures var r := UpdatePeer(rooms, at, socketId, peer);
      forall x :: x in rooms ==> r[x].peers.entries.Keys == rooms[x].peers.entries.Keys
  {
    var r := UpdatePeer(rooms, at, socketId, peer);
    forall x | x in rooms ensures r[x].peers.entries.Keys == rooms[x].peers.entries.Keys {
      if x == at.roomId {
        assert r[x].peers.entries == rooms[x].peers.entries[socketId := peer];
      }
    }
  }

  lemma UpdatePeerKeepsValid(rooms: map<string, Room>, peerRooms: map<string, string>, channels: map<string, set<string>>,
                             at: Located, socketId: string, peer: Peer)
    requires Valid(rooms, peerRooms, channels)
    requires at.roomId in rooms && at.room == rooms[at.roomId] && socketId in at.room.peers.entries
    requires peer.roomId == at.roomId && PeerWellFormed(peer)
    ensures Valid(UpdatePeer(rooms, at, socketId, peer), peerRooms, channels)
    ensures Coherent(rooms, peerRooms, channels) ==> Coherent(UpdatePeer(rooms, at, socketId, peer), peerRooms, channels)
  {
    var r := UpdatePeer(rooms, at, socketId, peer);
    UpdatePeerMembers(rooms, at, socketId, peer);
    UpdatePeerIndex(rooms, peerRooms, r);
    UpdatePeerNonEmpty(rooms, r);
    UpdatePeerChannels(rooms, channels, r);
    UpdatePeerWellFormed(rooms, at, socketId, peer);
    if Coherent(rooms, peerRooms, channels) {
      UpdatePeerIndexed(rooms, peerRooms, r);
    }
  }

  lemma UpdatePeerIndex(rooms: map<string, Room>, peerRooms: map<string, string>, r: map<string, Room>)
    requires IndexInRooms(rooms, peerRooms)
    requires r.Keys == rooms.Keys && forall x :: x in rooms ==> r[x].peers.entries.Keys == rooms[x].peers.entries.Keys
    ensures IndexInRooms(r, peerRooms)
  {
  }

  lemma UpdatePeerIndexed(rooms: map<string, Room>, peerRooms: map<string, string>, r: map<string, Room>)
    requires RoomsIndexed(rooms, peerRooms)
    requires r.Keys == rooms.Keys && forall x :: x in rooms ==> r[x].peers.entries.Keys == rooms[x].peers.entries.Keys
    ensures RoomsIndexed(r, peerRooms)
  {
    forall x, s | x in r && s in r[x].peers.entries ensures s in peerRooms && peerRooms[s] == x {
      assert s in rooms[x].peers.entries;
    }
  }

  lemma UpdatePeerNonEmpty(rooms: map<string, Room>, r: map<string, Room>)
    requires NoEmptyRoom(rooms)
    requires r.Keys == rooms.Keys && forall x :: x in rooms ==> r[x].peers.entries.Keys == rooms[x].peers.entries.Keys
    ensures NoEmptyRoom(r)
  {
    forall x | x in r ensures r[x].peers.entries != map[] {
      assert rooms[x].peers.entries != map[];
      var s :| s in rooms[x].peers.entries;
      assert s in r[x].peers.entries;
    }
  }

  lemma UpdatePeerChannels(rooms: map<string, Room>, channels: map<string, set<string>>, r: map<string, Room>)
    requires r.Keys == rooms.Keys && forall x :: x in rooms ==> r[x].peers.entries.Keys == rooms[x].peers.entries.Keys
    ensures ChannelsWithinRooms(rooms, channels) ==> ChannelsWithinRooms(r, channels)
    ensures ChannelsMatchRooms(rooms, channels) ==> ChannelsMatchRooms(r, channels)
  {
    assert forall x :: Members(r, x) == Members(rooms, x);
  }

  lemma UpdatePeerWellFormed(rooms: map<string, Room>, at: Located, socketId: string, peer: Peer)
    requires PeersWellFormed(rooms)
    requires at.roomId in rooms && at.room == rooms[at.roomId] && socketId in at.room.peers.entries
    requires peer.roomId == at.roomId && PeerWellFormed(peer)
    ensures PeersWellFormed(UpdatePeer(rooms, at, socketId, peer))
  {
    var r := UpdatePeer(rooms, at, socketId, peer);
    forall x, s | x in r && s in r[x].peers.entries
      ensures r[x].peers.entries[s].roomId == x && PeerWellFormed(r[x].peers.entries[s])
    {
      if x == at.roomId && s == socketId {
      } else if x == at.roomId {
        assert r[x].peers.entries[s] == rooms[x].peers.entries[s];
      } else {
        assert r[x] == rooms[x];
      }
    }
  }

  lemma JoinKeepsValid(rooms: map<string, Room>, peerRooms: map<string, string>, channels: map<string, set<string>>,
                       roomId: string, base: Room, socketId: string, uid: nat)
    requires Valid(rooms, peerRooms, channels)
    requires JoinBase(rooms, roomId, base)
    ensures var after := WithJoined(rooms, roomId, base, socketId, NewPeer(roomId, uid));
      Valid(after, peerRooms[socketId := roomId], channels[roomId := Channel(channels, roomId) + {socketId}])
    ensures var after := WithJoined(rooms, roomId, base, socketId, NewPeer(roomId, uid));
      Coherent(rooms, peerRooms, channels) && roomId != "" && (socketId in peerRooms ==> peerRooms[socketId] == roomId) ==>
      Coherent(after, peerRooms[socketId := roomId], channels[roomId := Channel(channels, roomId) + {socketId}])
  {
    var peer := NewPeer(roomId, uid);
    var after := WithJoined(rooms, roomId, base, socketId, peer);
    var pr := peerRooms[socketId := roomId];
    var ch := channels[roomId := Channel(channels, roomId) + {socketId}];
    JoinMembers(rooms, roomId, base, socketId, peer);
    JoinIndex(rooms, peerRooms, after, roomId, socketId);
    JoinNonEmpty(rooms, after, roomId, socketId);
    JoinWellFormed(rooms, roomId, base, socketId, peer);
    JoinChannels(rooms, channels, after, roomId, socketId);
    if Coherent(rooms, peerRooms, channels) && roomId != "" && (socketId in peerRooms ==> peerRooms[socketId] == roomId) {
      JoinIndexed(rooms, peerRooms, after, roomId, socketId);
    }
  }

  /** A `joinRoom` from a socket indexed to another room leaves it listed in
      that room while the index now names the new one. */
  lemma JoinMoveLeavesStale(rooms: map<string, Room>, peerRooms: map<string, string>, channels: map<string, set<string>>,
                            roomId: string, base: Room, socketId: string, peer: Peer)
    requires Valid(rooms, peerRooms, channels)
    requires socketId in peerRooms && peerRooms[socketId] != roomId
    ensures var after := WithJoined(rooms, roomId, base, socketId, peer);
      var previous := peerRooms[socketId];
      && previous in after && socketId in after[previous].peers.entries
      && !RoomsIndexed(after, peerRooms[socketId := roomId])
  {
    var after := WithJoined(rooms, roomId, base, socketId, peer);
    var previous := peerRooms[socketId];
    assert after[previous] == rooms[previous];
    assert previous in after && socketId in after[previous].peers.entries;
    assert peerRooms[socketId := roomId][socketId] != previous;
  }

  /** The joined room gains the socket; no other room changes. */
  lemma JoinMembers(rooms: map<string, Room>, roomId: string, base: Room, socketId: string, peer: Peer)
    requires JoinBase(rooms, roomId, base)
    ensures var after := WithJoined(rooms, roomId, base, socketId, peer);
      && after.Keys == rooms.Keys + {roomId}
      && Members(after, roomId) == Members(rooms, roomId) + {socketId}
      && (forall x :: x != roomId ==> Members(after, x) == Members(rooms, x))
      && (forall x :: x in rooms && x != roomId ==> after[x] == rooms[x])
  {
    var after := WithJoined(rooms, roomId, base, socketId, peer);
    assert after[roomId].peers.entries == base.peers.entries[socketId := peer];
  }

  lemma JoinIndex(rooms: map<string, Room>, peerRooms: map<string, string>, after: map<string, Room>, roomId: string, socketId: string)
    requires IndexInRooms(rooms, peerRooms)
    requires after.Keys == rooms.Keys + {roomId}
    requires Members(after, roomId) == Members(rooms, roomId) + {socketId}
    requires forall x :: x != roomId ==> Members(after, x) == Members(rooms, x)
    ensures IndexInRooms(after, peerRooms[socketId := roomId])
  {
    var pr := peerRooms[socketId := roomId];
    forall s | s in pr ensures pr[s] in after && s in after[pr[s]].peers.entries {
      if s == socketId {
        assert s in Members(after, roomId);
      } else {
        assert s in Members(rooms, pr[s]);
        assert s in Members(after, pr[s]);
      }
    }
  }

  lemma JoinNonEmpty(rooms: map<string, Room>, after: map<string, Room>, roomId: string, socketId: string)
    requires NoEmptyRoom(rooms)
    requires after.Keys == rooms.Keys + {roomId}
    requires Members(after, roomId) == Members(rooms, roomId) + {socketId}
    requires forall x :: x in rooms && x != roomId ==> after[x] == rooms[x]
    ensures NoEmptyRoom(after)
  {
    forall x | x in after ensures after[x].peers.entries != map[] {
      if x == roomId {
        assert socketId in Members(after, roomId);
      }
    }
  }

  lemma JoinWellFormed(rooms: map<string, Room>, roomId: string, base: Room, socketId: string, peer: Peer)
    requires PeersWellFormed(rooms)
    requires JoinBase(rooms, roomId, base)
    requires peer.roomId == roomId && PeerWellFormed(peer)
    ensures PeersWellFormed(WithJoined(rooms, roomId, base, socketId, peer))
  {
    var after := WithJoined(rooms, roomId, base, socketId, peer);
    forall x, s | x in after && s in after[x].peers.entries
      ensures after[x].peers.entries[s].roomId == x && PeerWellFormed(after[x].peers.entries[s])
    {
      if x == roomId && s != socketId {
        assert after[x].peers.entries[s] == base.peers.entries[s];
        assert s in rooms[x].peers.entries;
      }
    }
  }

  lemma JoinChannels(rooms: map<string, Room>, channels: map<string, set<string>>, after: map<string, Room>, roomId: string, socketId: string)
    requires Members(after, roomId) == Members(rooms, roomId) + {socketId}
    requires forall x :: x != roomId ==> Members(after, x) == Members(rooms, x)
    ensures var ch := channels[roomId := Channel(channels, roomId) + {socketId}];
      && (ChannelsWithinRooms(rooms, channels) ==> ChannelsWithinRooms(after, ch))
      && (ChannelsWithinRooms(rooms, channels) && ChannelsMatchRooms(rooms, channels) ==> ChannelsMatchRooms(after, ch))
  {
    var ch := channels[roomId := Channel(channels, roomId) + {socketId}];
    if ChannelsWithinRooms(rooms, channels) && ChannelsMatchRooms(rooms, channels) {
      forall x | x in after ensures Channel(ch, x) == after[x].peers.entries.Keys {
        assert Members(after, x) == after[x].peers.entries.Keys;
        if x == roomId && roomId !in rooms {
          assert Channel(channels, roomId) <= Members(rooms, roomId);
        }
      }
    }
  }

  lemma JoinIndexed(rooms: map<string, Room>, peerRooms: map<string, string>, after: map<string, Room>, roomId: string, socketId: string)
    requires RoomsIndexed(rooms, peerRooms)
    requires socketId in peerRooms ==> peerRooms[socketId] == roomId
    requires Members(after, roomId) == Members(rooms, roomId) + {socketId}
    requires forall x :: x != roomId ==> Members(after, x) == Members(rooms, x)
    ensures RoomsIndexed(after, peerRooms[socketId := roomId])
  {
    var pr := peerRooms[socketId := roomId];
    forall x, s | x in after && s in after[x].peers.entries ensures s in pr && pr[s] == x {
      assert s in Members(after, x);
      if s != socketId {
        assert s in Members(rooms, x);
      } else if x != roomId {
        assert s in Members(rooms, x);
      }
    }
  }

  lemma LeaveKeepsValid(rooms: map<string, Room>, peerRooms: map<string, string>, channels: map<string, set<string>>, socketId: string)
    requires Valid(rooms, peerRooms, channels)
    requires socketId in peerRooms && peerRooms[socketId] != ""
    ensures Valid(WithoutPeer(rooms, peerRooms[socketId], socketId), peerRooms - {socketId}, LeaveAll(channels, socketId))
    ensures Coherent(rooms, peerRooms, channels) ==>
      Coherent(WithoutPeer(rooms, peerRooms[socketId], socketId), peerRooms - {socketId}, LeaveAll(channels, socketId))
  {
    var roomId := peerRooms[socketId];
    var after := WithoutPeer(rooms, roomId, socketId);
    LeaveMembers(rooms, roomId, socketId);
    LeaveIndex(rooms, peerRooms, after, socketId);
    LeaveNonEmpty(rooms, roomId, socketId);
    LeaveWellFormed(rooms, roomId, socketId);
    LeaveChannels(rooms, channels, after, roomId, socketId);
    if Coherent(rooms, peerRooms, channels) {
      LeaveIndexed(rooms, peerRooms, after, roomId, socketId);
      LeaveChannelsMatch(rooms, peerRooms, channels, after, roomId, socketId);
    }
  }

  /** The left room loses the socket; no other room changes. */
  lemma LeaveMembers(rooms: map<string, Room>, roomId: string, socketId: string)
    requires roomId in rooms
    ensures var after := WithoutPeer(rooms, roomId, socketId);
      && after.Keys <= rooms.Keys
      && Members(after, roomId) == Members(rooms, roomId) - {socketId}
      && (forall x :: x != roomId ==> Members(after, x) == Members(rooms, x))
  {
    var after := WithoutPeer(rooms, roomId, socketId);
    if roomId !in after {
      assert rooms[roomId].peers.entries - {socketId} == map[];
      assert (rooms[roomId].peers.entries - {socketId}).Keys == {};
    }
  }

  lemma LeaveIndex(rooms: map<string, Room>, peerRooms: map<string, string>, after: map<string, Room>, socketId: string)
    requires IndexInRooms(rooms, peerRooms)
    requires socketId in peerRooms
    requires Members(after, peerRooms[socketId]) == Members(rooms, peerRooms[socketId]) - {socketId}
    requires forall x :: x != peerRooms[socketId] ==> Members(after, x) == Members(rooms, x)
    ensures IndexInRooms(after, peerRooms - {socketId})
  {
    var pr := peerRooms - {socketId};
    forall s | s in pr ensures pr[s] in after && s in after[pr[s]].peers.entries {
      assert s in Members(rooms, pr[s]);
      assert s in Members(after, pr[s]);
    }
  }

  lemma LeaveNonEmpty(rooms: map<string, Room>, roomId: string, socketId: string)
    requires NoEmptyRoom(rooms)
    requires roomId in rooms
    ensures NoEmptyRoom(WithoutPeer(rooms, roomId, socketId))
  {
  }

  lemma LeaveWellFormed(rooms: map<string, Room>, roomId: string, socketId: string)
    requires PeersWellFormed(rooms)
    requires roomId in rooms
    ensures PeersWellFormed(WithoutPeer(rooms, roomId, socketId))
  {
    var after := WithoutPeer(rooms, roomId, socketId);
    forall x, s | x in after && s in after[x].peers.entries
      ensures after[x].peers.entries[s].roomId == x && PeerWellFormed(after[x].peers.entries[s])
    {
      assert after[x].peers.entries[s] == rooms[x].peers.entries[s];
    }
  }

  lemma LeaveChannels(rooms: map<string, Room>, channels: map<string, set<string>>, after: map<string, Room>, roomId: string, socketId: string)
    requires ChannelsWithinRooms(rooms, channels)
    requires Members(after, roomId) == Members(rooms, roomId) - {socketId}
    requires forall x :: x != roomId ==> Members(after, x) == Members(rooms, x)
    ensures ChannelsWithinRooms(after, LeaveAll(channels, socketId))
  {
  }

  lemma LeaveIndexed(rooms: map<string, Room>, peerRooms: map<string, string>, after: map<string, Room>, roomId: string, socketId: string)
    requires RoomsIndexed(rooms, peerRooms)
    requires socketId in peerRooms && peerRooms[socketId] == roomId
    requires Members(after, roomId) == Members(rooms, roomId) - {socketId}
    requires forall x :: x != roomId ==> Members(after, x) == Members(rooms, x)
    ensures RoomsIndexed(after, peerRooms - {socketId})
  {
    forall x, s | x in after && s in after[x].peers.entries ensures s in peerRooms - {socketId} && peerRooms[s] == x {
      assert s in Members(after, x);
      assert s in Members(rooms, x);
    }
  }

  lemma LeaveChannelsMatch(rooms: map<string, Room>, peerRooms: map<string, string>, channels: map<string, set<string>>,
                           after: map<string, Room>, roomId: string, socketId: string)
    requires RoomsIndexed(rooms, peerRooms) && ChannelsMatchRooms(rooms, channels)
    requires socketId in peerRooms && peerRooms[socketId] == roomId
    requires after.Keys <= rooms.Keys
    requires Members(after, roomId) == Members(rooms, roomId) - {socketId}
    requires forall x :: x != roomId ==> Members(after, x) == Members(rooms, x)
    ensures ChannelsMatchRooms(after, LeaveAll(channels, socketId))
  {
    var ch := LeaveAll(channels, socketId);
    forall x | x in after ensures Channel(ch, x) == after[x].peers.entries.Keys {
      assert Members(after, x) == after[x].peers.entries.Keys;
      assert Channel(ch, x) == Channel(channels, x) - {socketId};
      if x != roomId {
        assert socketId !in rooms[x].peers.entries;
      }
    }
  }
}
