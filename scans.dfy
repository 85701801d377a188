/** The `forEach` walks the handlers make over a room's peers or a peer's
    consumers, each given as a function of the map's insertion order, a loop
    proved to compute it, and the facts the handlers rely on. */
module Scans {
  import opened Types
  import opened JsMap

  // ---------------------------------------------------------------------
  // joinRoom: the ids of the producers of everyone else in the room

  /** The producers of the peers listed in `keys`, other than `self`, in the
      order of `keys`. */
  function ProducersBefore(keys: seq<string>, entries: map<string, Peer>, self: string): (ids: seq<nat>)
    requires forall k :: k in keys ==> k in entries
    ensures |ids| <= |keys|
  {
    if keys == [] then []
    else
      var last := keys[|keys| - 1];
      var p := entries[last];
      ProducersBefore(keys[..|keys| - 1], entries, self)
        + (if last != self && p.producer.Some? then [p.producer.value.id] else [])
  }

  /** `existingProducers` as the join reply lists it. */
  function ExistingProducers(peers: OrderedMap<string, Peer>, self: string): seq<nat> {
    ProducersBefore(peers.keys, peers.entries, self)
  }

  /** A producer id is listed exactly when some other peer in the room has
      that producer. */
  lemma {:induction false} ProducersBeforeMembers(keys: seq<string>, entries: map<string, Peer>, self: string, id: nat)
    requires forall k :: k in keys ==> k in entries
    ensures id in ProducersBefore(keys, entries, self) <==>
      exists k :: k in keys && k != self && HasProducer(entries[k], id)
  {
    if keys != [] {
      var init := keys[..|keys| - 1];
      var last := keys[|keys| - 1];
      assert keys == init + [last];
      ProducersBeforeMembers(init, entries, self, id);
      if id in ProducersBefore(keys, entries, self) && id !in ProducersBefore(init, entries, self) {
        assert last != self && HasProducer(entries[last], id);
      }
      if exists k :: k in keys && k != self && HasProducer(entries[k], id) {
        var k :| k in keys && k != self && HasProducer(entries[k], id);
        if k != last {
          assert k in init;
        }
      }
    }
  }

  lemma ExistingProducersMembers(peers: OrderedMap<string, Peer>, self: string, id: nat)
    ensures id in ExistingProducers(peers, self) <==>
      exists k :: k in peers.entries && k != self && HasProducer(peers.entries[k], id)
  {
    ProducersBeforeMembers(peers.keys, peers.entries, self, id);
  }

  /** Changing what is stored under `self` does not change the list. */
  lemma {:induction false} ProducersBeforeIgnoresSelf(keys: seq<string>, e1: map<string, Peer>, e2: map<string, Peer>, self: string)
    requires forall k :: k in keys ==> k in e1 && k in e2
    requires forall k :: k in keys && k != self ==> e1[k] == e2[k]
    ensures ProducersBefore(keys, e1, self) == ProducersBefore(keys, e2, self)
  {
    if keys != [] {
      ProducersBeforeIgnoresSelf(keys[..|keys| - 1], e1, e2, self);
    }
  }

  /** The list a joiner receives is the list of the room as it was before the
      join: the joiner's own entry, new or replaced, is never in it. */
  lemma ExistingProducersIgnoresJoiner(peers: OrderedMap<string, Peer>, self: string, p: Peer)
    ensures ExistingProducers(Set(peers, self, p), self) == ExistingProducers(peers, self)
  {
    var after := Set(peers, self, p);
    if self in peers.entries {
      ProducersBeforeIgnoresSelf(peers.keys, after.entries, peers.entries, self);
    } else {
      assert after.keys[..|after.keys| - 1] == peers.keys;
      ProducersBeforeIgnoresSelf(peers.keys, after.entries, peers.entries, self);
    }
  }

  /** The `room.peers.forEach` loop of `joinRoom`. */
  method CollectExistingProducers(peers: OrderedMap<string, Peer>, self: string) returns (ids: seq<nat>)
    ensures ids == ExistingProducers(peers, self)
  {
    ids := [];
    var i := 0;
    while i < |peers.keys|
      invariant 0 <= i <= |peers.keys|
      invariant ids == ProducersBefore(peers.keys[..i], peers.entries, self)
    {
      var peerId := peers.keys[i];
      var p := peers.entries[peerId];
      if peerId != self && p.producer.Some? {
        ids := ids + [p.producer.value.id];
      }
      assert peers.keys[..i + 1][..i] == peers.keys[..i];
      i := i + 1;
    }
    assert peers.keys[..i] == peers.keys;
  }

  // ---------------------------------------------------------------------
  // consumeMedia: the producer with the requested id

  /** The producer with id `producerId` of the last peer in `keys` that has
      one: the `forEach` keeps overwriting `targetProducer`. */
  function LastProducerWith(keys: seq<string>, entries: map<string, Peer>, producerId: nat): (r: Option<Producer>)
    requires forall k :: k in keys ==> k in entries
    ensures r.Some? ==> r.value.id == producerId
    ensures r.Some? ==> exists k :: k in keys && entries[k].producer == r
    ensures r.None? <==> forall k :: k in keys ==> !HasProducer(entries[k], producerId)
  {
    if keys == [] then None
    else
      var last := keys[|keys| - 1];
      var init := keys[..|keys| - 1];
      assert keys == init + [last];
      if HasProducer(entries[last], producerId) then entries[last].producer
      else LastProducerWith(init, entries, producerId)
  }

  function TargetProducer(peers: OrderedMap<string, Peer>, producerId: nat): Option<Producer> {
    LastProducerWith(peers.keys, peers.entries, producerId)
  }

  /** The `room.peers.forEach` loop of `consumeMedia`. */
  method FindProducer(peers: OrderedMap<string, Peer>, producerId: nat) returns (target: Option<Producer>)
    ensures target == TargetProducer(peers, producerId)
  {
    target := None;
    var i := 0;
    while i < |peers.keys|
      invariant 0 <= i <= |peers.keys|
      invariant target == LastProducerWith(peers.keys[..i], peers.entries, producerId)
    {
      var p := peers.entries[peers.keys[i]];
      if p.producer.Some? && p.producer.value.id == producerId {
        target := p.producer;
      }
      assert peers.keys[..i + 1][..i] == peers.keys[..i];
      i := i + 1;
    }
    assert peers.keys[..i] == peers.keys;
  }

  // ---------------------------------------------------------------------
  // resumePausedConsumer

  /** A consumer after `resume()` if it is the one asked for; the engine
      leaves a closed consumer as it is. */
  function Resumed(c: Consumer, consumerId: nat, closed: set<nat>): (r: Consumer)
    ensures r.id == c.id && r.producerId == c.producerId && r.kind == c.kind && r.transportId == c.transportId
    ensures r.paused <==> c.paused && !(c.id == consumerId && c.id !in closed)
  {
    if c.id == consumerId && c.id !in closed then c.(paused := false) else c
  }

  function ResumeMatching(m: OrderedMap<nat, Consumer>, consumerId: nat, closed: set<nat>): (r: OrderedMap<nat, Consumer>)
    ensures r.keys == m.keys && r.entries.Keys == m.entries.Keys
  {
    RawMap(m.keys, map k | k in m.entries :: Resumed(m.entries[k], consumerId, closed))
  }

  /** Only the open consumer with the requested id changes, and only its
      paused flag, which becomes false. */
  lemma ResumeChangesOnlyTarget(m: OrderedMap<nat, Consumer>, consumerId: nat, closed: set<nat>, k: nat)
    requires k in m.entries
    ensures var before := m.entries[k]; var after := ResumeMatching(m, consumerId, closed).entries[k];
      && (before.id != consumerId || before.id in closed ==> after == before)
      && (before.id == consumerId && before.id !in closed ==> after == before.(paused := false) && !after.paused)
  {
  }

  /** An id no consumer has changes nothing, and nor does a second resume. */
  lemma ResumeUnknownIsNoop(m: OrderedMap<nat, Consumer>, consumerId: nat, closed: set<nat>)
    requires forall k :: k in m.entries ==> m.entries[k].id != consumerId
    ensures ResumeMatching(m, consumerId, closed) == m
  {
    var r := ResumeMatching(m, consumerId, closed);
    assert r.entries == m.entries;
  }

  lemma ResumeIdempotent(m: OrderedMap<nat, Consumer>, consumerId: nat, closed: set<nat>)
    ensures ResumeMatching(ResumeMatching(m, consumerId, closed), consumerId, closed) == ResumeMatching(m, consumerId, closed)
  {
    var once := ResumeMatching(m, consumerId, closed);
    var twice := ResumeMatching(once, consumerId, closed);
    assert twice.entries == once.entries;
  }

  /** The `peer.consumers.forEach` loop of `resumePausedConsumer`. */
  method ResumeEach(m: OrderedMap<nat, Consumer>, consumerId: nat, closed: set<nat>) returns (r: OrderedMap<nat, Consumer>)
    ensures r == ResumeMatching(m, consumerId, closed)
  {
    r := m;
    var i := 0;
    while i < |m.keys|
      invariant 0 <= i <= |m.keys|
      invariant r.keys == m.keys && r.entries.Keys == m.entries.Keys
      invariant forall k :: k in r.entries ==>
        r.entries[k] == if k in m.keys[..i] then Resumed(m.entries[k], consumerId, closed) else m.entries[k]
    {
      var k := m.keys[i];
      assert k !in m.keys[..i];
      var c := r.entries[k];
      if c.id == consumerId && c.id !in closed {
        r := Set(r, k, c.(paused := false));
      }
      assert m.keys[..i + 1] == m.keys[..i] + [k];
      i := i + 1;
    }
    assert m.keys[..i] == m.keys;
    assert r.entries == ResumeMatching(m, consumerId, closed).entries;
  }

  // ---------------------------------------------------------------------
  // disconnect: the close() calls

  /** The ids of the engine objects that `effects` calls close() on. */
  function CloseTargets(effects: seq<Effect>): set<nat> {
    set i | 0 <= i < |effects| && effects[i].Close? :: effects[i].objectId
  }

  lemma CloseTargetsAppend(a: seq<Effect>, b: seq<Effect>)
    ensures CloseTargets(a + b) == CloseTargets(a) + CloseTargets(b)
  {
    var ab := a + b;
    forall x | x in CloseTargets(a) ensures x in CloseTargets(ab) {
      var i :| 0 <= i < |a| && a[i].Close? && a[i].objectId == x;
      assert ab[i] == a[i];
    }
    forall x | x in CloseTargets(b) ensures x in CloseTargets(ab) {
      var i :| 0 <= i < |b| && b[i].Close? && b[i].objectId == x;
      assert ab[|a| + i] == b[i];
    }
    forall x | x in CloseTargets(ab) ensures x in CloseTargets(a) + CloseTargets(b) {
      var i :| 0 <= i < |ab| && ab[i].Close? && ab[i].objectId == x;
      if i >= |a| {
        assert b[i - |a|] == ab[i];
      }
    }
  }

  /** One close() per consumer, in iteration order. */
  function CloseEach(keys: seq<nat>, entries: map<nat, Consumer>): (calls: seq<Effect>)
    requires forall k :: k in keys ==> k in entries
    ensures |calls| == |keys|
    ensures forall i :: 0 <= i < |keys| ==> calls[i] == Close(entries[keys[i]].id)
  {
    if keys == [] then []
    else CloseEach(keys[..|keys| - 1], entries) + [Close(entries[keys[|keys| - 1]].id)]
  }

  /** The ids of a peer's consumers. */
  function ConsumerIds(m: OrderedMap<nat, Consumer>): set<nat> {
    set k | k in m.entries :: m.entries[k].id
  }

  lemma CloseEachTargets(m: OrderedMap<nat, Consumer>)
    ensures CloseTargets(CloseEach(m.keys, m.entries)) == ConsumerIds(m)
  {
    var calls := CloseEach(m.keys, m.entries);
    forall x | x in ConsumerIds(m) ensures x in CloseTargets(calls) {
      var k :| k in m.entries && m.entries[k].id == x;
      var i :| 0 <= i < |m.keys| && m.keys[i] == k;
      assert calls[i] == Close(x);
    }
  }

  /** The `peer.consumers.forEach((consumer) => consumer.close())` loop. */
  method CloseCalls(m: OrderedMap<nat, Consumer>) returns (calls: seq<Effect>)
    ensures calls == CloseEach(m.keys, m.entries)
  {
    calls := [];
    var i := 0;
    while i < |m.keys|
      invariant 0 <= i <= |m.keys|
      invariant calls == CloseEach(m.keys[..i], m.entries)
    {
      calls := calls + [Close(m.entries[m.keys[i]].id)];
      assert m.keys[..i + 1][..i] == m.keys[..i];
      i := i + 1;
    }
    assert m.keys[..i] == m.keys;
  }

  /** What `disconnect` does to a found peer's producer and transports, in
      order: tell the others its producer is gone, then close the producer
      and both transports. */
  function HandleEffects(p: Peer, others: set<string>): seq<Effect> {
    (if p.producer.Some? then [Emit(others, ProducerClosed(p.producer.value.id)), Close(p.producer.value.id)] else [])
      + (if p.producerTransport.Some? then [Close(p.producerTransport.value.id)] else [])
      + (if p.consumerTransport.Some? then [Close(p.consumerTransport.value.id)] else [])
  }

  /** Everything `disconnect` does to a found peer's objects: the above, then
      one close() per consumer. */
  function DisconnectEffects(p: Peer, others: set<string>): seq<Effect> {
    HandleEffects(p, others) + CloseEach(p.consumers.keys, p.consumers.entries)
  }

  /** The objects the first part closes, one by one. */
  lemma HandleTargets(p: Peer, others: set<string>)
    ensures CloseTargets(HandleEffects(p, others)) ==
      (if p.producer.Some? then {p.producer.value.id} else {})
      + (if p.producerTransport.Some? then {p.producerTransport.value.id} else {})
      + (if p.consumerTransport.Some? then {p.consumerTransport.value.id} else {})
  {
    var a := if p.producer.Some? then [Emit(others, ProducerClosed(p.producer.value.id)), Close(p.producer.value.id)] else [];
    var b := if p.producerTransport.Some? then [Close(p.producerTransport.value.id)] else [];
    var c := if p.consumerTransport.Some? then [Close(p.consumerTransport.value.id)] else [];
    CloseTargetsAppend(a, b);
    CloseTargetsAppend(a + b, c);
    if p.producer.Some? {
      assert CloseTargets(a) == {p.producer.value.id} by {
        assert a[1] == Close(p.producer.value.id);
      }
    }
    if p.producerTransport.Some? {
      assert CloseTargets(b) == {p.producerTransport.value.id} by {
        assert b[0] == Close(p.producerTransport.value.id);
      }
    }
    if p.consumerTransport.Some? {
      assert CloseTargets(c) == {p.consumerTransport.value.id} by {
        assert c[0] == Close(p.consumerTransport.value.id);
      }
    }
  }

  /** Every object the peer holds is closed. */
  lemma DisconnectClosesEverything(p: Peer, others: set<string>)
    ensures var closes := CloseTargets(DisconnectEffects(p, others));
      && (p.producer.Some? ==> p.producer.value.id in closes)
      && (p.producerTransport.Some? ==> p.producerTransport.value.id in closes)
      && (p.consumerTransport.Some? ==> p.consumerTransport.value.id in closes)
      && ConsumerIds(p.consumers) <= closes
  {
    var a := if p.producer.Some? then [Emit(others, ProducerClosed(p.producer.value.id)), Close(p.producer.value.id)] else [];
    var b := if p.producerTransport.Some? then [Close(p.producerTransport.value.id)] else [];
    var c := if p.consumerTransport.Some? then [Close(p.consumerTransport.value.id)] else [];
    var d := CloseEach(p.consumers.keys, p.consumers.entries);
    CloseTargetsAppend(a, b);
    CloseTargetsAppend(a + b, c);
    CloseTargetsAppend(a + b + c, d);
    CloseEachTargets(p.consumers);
    if p.producer.Some? {
      assert a[1] == Close(p.producer.value.id);
    }
    if p.producerTransport.Some? {
      assert b[0] == Close(p.producerTransport.value.id);
    }
    if p.consumerTransport.Some? {
      assert c[0] == Close(p.consumerTransport.value.id);
    }
  }

  /** In the first part the only push is the one about the producer, and
      it comes first, right before the producer's close(). */
  lemma HandleNotifiesFirst(p: Peer, others: set<string>)
    ensures var h := HandleEffects(p, others);
      && (forall i :: 0 <= i < |h| && h[i].Emit? ==>
            i == 0 && p.producer.Some? && h[i] == Emit(others, ProducerClosed(p.producer.value.id)))
      && (p.producer.Some? ==> |h| >= 2 && h[0].Emit? && h[1] == Close(p.producer.value.id))
  {
    var a := if p.producer.Some? then [Emit(others, ProducerClosed(p.producer.value.id)), Close(p.producer.value.id)] else [];
    var b := if p.producerTransport.Some? then [Close(p.producerTransport.value.id)] else [];
    var c := if p.consumerTransport.Some? then [Close(p.consumerTransport.value.id)] else [];
    var h := HandleEffects(p, others);
    assert h == a + (b + c);
    forall i | |a| <= i < |h| ensures h[i].Close? {
      var bc := b + c;
      assert h[i] == bc[i - |a|];
    }
  }

  /** The only push is the one about the producer, and it comes before any
      close() call; without a producer nobody is told anything. */
  lemma DisconnectNotifiesFirst(p: Peer, others: set<string>)
    ensures var effects := DisconnectEffects(p, others);
      && (forall i :: 0 <= i < |effects| && effects[i].Emit? ==>
            i == 0 && p.producer.Some? && effects[i] == Emit(others, ProducerClosed(p.producer.value.id)))
      && (p.producer.Some? ==> effects[0].Emit? && effects[1] == Close(p.producer.value.id))
  {
    var h := HandleEffects(p, others);
    var d := CloseEach(p.consumers.keys, p.consumers.entries);
    var effects := h + d;
    HandleNotifiesFirst(p, others);
    forall i | 0 <= i < |effects| ensures effects[i] == (if i < |h| then h[i] else d[i - |h|]) {
    }
  }
}
