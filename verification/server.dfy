/**
 * The signalling server (server/server.js): a round-robin worker pool and a registry of
 * rooms, each holding its peers' transports, producers and consumers.
 *
 * Every socket handler is a pure transition from a registry state and a request to the new
 * state, the value the handler passes to its acknowledgement callback, and the events it
 * emits. The caller is identified by its socket id. Whatever the media engine decides
 * (the id of a new transport, producer or consumer, whether a router can consume a
 * producer, whether an engine call throws) arrives as a parameter.
 */
module Server {
  import opened Options
  import opened OrderedMaps
  import opened Protocol

  /** A server-side consumer: the producer it reads, its kind, and whether it is paused. */
  datatype Consumer = Consumer(producerId: ProducerId, kind: Kind, paused: bool)

  /** A joined socket. `transports` maps a transport id to the direction the client asked
      for when creating it; the server stores that string without checking it. */
  datatype Peer = Peer(
    id: PeerId,
    username: string,
    roomId: RoomId,
    transports: Entries<TransportId, string>,
    producers: Entries<ProducerId, Kind>,
    consumers: Entries<ConsumerId, Consumer>)

  /** A room; `worker` is the index of the worker whose router serves it. */
  datatype Room = Room(id: RoomId, worker: nat, peers: Entries<PeerId, Peer>)

  /** The worker pool: `size` workers created at start-up and the index handed out next. */
  datatype Pool = Pool(size: nat, next: nat)

  datatype State = State(pool: Pool, rooms: Entries<RoomId, Room>)

  /** The direction string that marks a receive transport. */
  const Recv: string := "recv"

  datatype Error =
    | RoomNotFound
    | TransportNotFound
    | CannotConsume
    | RecvTransportNotFound
    | ConsumerNotFound
      /** create-transport dereferenced `room.peers.get(socket.id)` and found nothing */
    | PeerMissing
    | EngineError(message: string)

  /** The `error` string the acknowledgement carries: an engine failure passes the engine's
      own message through, every other failure a fixed non-empty text. */
  function Message(e: Error): (r: string)
    ensures e.EngineError? ==> r == e.message
    ensures !e.EngineError? ==> r != ""
  {
    match e
    case RoomNotFound => "Room not found"
    case TransportNotFound => "Transport not found"
    case CannotConsume => "Cannot consume"
    case RecvTransportNotFound => "Receive transport not found"
    case ConsumerNotFound => "Consumer not found"
    case PeerMissing => "Cannot read properties of undefined (reading 'transports')"
    case EngineError(m) => m
  }

  /** The fixed texts tell the failures apart: a client reading the `error` string of a
      handler's own refusal knows which refusal it was. */
  lemma MessagesDistinct(e1: Error, e2: Error)
    requires !e1.EngineError? && !e2.EngineError?
    ensures Message(e1) == Message(e2) <==> e1 == e2
  {
  }

  datatype ProducerInfo = ProducerInfo(peerId: PeerId, producerId: ProducerId, kind: Kind)

  /** What a handler passes to its acknowledgement callback. */
  datatype Reply =
      /** the router's RTP capabilities, identified here by the worker hosting the router */
    | Joined(worker: nat)
    | TransportCreated(transportId: TransportId)
    | Success
    | Produced(producerId: ProducerId)
    | Consumed(consumerId: ConsumerId, producerId: ProducerId, peerId: Option<PeerId>, kind: Kind)
    | Producers(producers: seq<ProducerInfo>)
    | Failure(error: Error)
      /** the handler has no acknowledgement (disconnect, engine close callbacks) */
    | NoReply

  datatype Event =
    | PeerJoined(peerId: PeerId, username: string)
    | PeerLeft(peerId: PeerId)
    | NewProducer(peerId: PeerId, producerId: ProducerId, kind: Kind)
    | ConsumerClosed(consumerId: ConsumerId)

  /** `socket.to(roomId).emit` reaches every socket in the room except the sender;
      `socket.emit` reaches only the socket `peerId`. */
  datatype Target = ToRoomExcept(roomId: RoomId, sender: PeerId) | ToSocket(peerId: PeerId)

  datatype Emit = Emit(target: Target, event: Event)

  datatype Step = Step(state: State, reply: Reply, emits: seq<Emit>)

  // ---------------------------------------------------------------------------------------
  // Well-formedness and the registry invariant
  // ---------------------------------------------------------------------------------------

  predicate PeerWellFormed(key: PeerId, p: Peer) {
    && p.id == key
    && DistinctKeys(p.transports)
    && DistinctKeys(p.producers)
    && DistinctKeys(p.consumers)
  }

  predicate RoomWellFormed(key: RoomId, r: Room) {
    && r.id == key
    && DistinctKeys(r.peers)
    && forall e :: e in r.peers ==> PeerWellFormed(e.0, e.1)
  }

  predicate PoolValid(pool: Pool) {
    0 < pool.size && pool.next < pool.size
  }

  /** What the JavaScript data structures guarantee by themselves: `Map` keys are distinct,
      each record is stored under its own id, and the pool was filled at start-up. */
  predicate WellFormed(s: State) {
    && PoolValid(s.pool)
    && DistinctKeys(s.rooms)
    && forall e :: e in s.rooms ==> RoomWellFormed(e.0, e.1)
  }

  /** The registry invariant the handlers maintain: every registered room has at least one
      peer and is served by one of the pool's workers. */
  predicate Invariant(s: State) {
    && WellFormed(s)
    && forall e :: e in s.rooms ==> |e.1.peers| > 0 && e.1.worker < s.pool.size
  }

  /** Peer `peerId` of room `roomId`, if both exist. */
  function PeerIn(s: State, roomId: RoomId, peerId: PeerId): Option<Peer> {
    match Get(s.rooms, roomId)
    case None => None
    case Some(room) => Get(room.peers, peerId)
  }

  /** `t` differs from `s` at most in the record of peer `peerId` of room `roomId`. */
  ghost predicate OnlyPeerChanged(s: State, t: State, roomId: RoomId, peerId: PeerId) {
    && t.pool == s.pool
    && (forall id :: id != roomId ==> Get(t.rooms, id) == Get(s.rooms, id))
    && (forall id :: HasKey(t.rooms, id) <==> HasKey(s.rooms, id))
    && (forall id :: IndexOf(t.rooms, id) == IndexOf(s.rooms, id))
    && (Get(s.rooms, roomId).Some? ==> Get(t.rooms, roomId).value.worker == Get(s.rooms, roomId).value.worker)
    && (forall p :: p != peerId ==> PeerIn(t, roomId, p) == PeerIn(s, roomId, p))
  }

  /** Replaces the record of an existing peer, as the handlers do by mutating it in place. */
  function UpdatePeer(s: State, roomId: RoomId, peerId: PeerId, peer: Peer): (t: State)
    requires WellFormed(s)
    requires PeerIn(s, roomId, peerId).Some?
    requires PeerWellFormed(peerId, peer)
    ensures WellFormed(t)
    ensures Invariant(s) ==> Invariant(t)
    ensures PeerIn(t, roomId, peerId) == Some(peer)
    ensures OnlyPeerChanged(s, t, roomId, peerId)
  {
    var room := Get(s.rooms, roomId).value;
    var room' := room.(peers := Set(room.peers, peerId, peer));
    assert RoomWellFormed(roomId, room');
    s.(rooms := Set(s.rooms, roomId, room'))
  }

  // ---------------------------------------------------------------------------------------
  // Worker pool and room creation
  // ---------------------------------------------------------------------------------------

  /** `getWorker`: hands out the current index and advances it modulo the pool size. */
  function GetWorker(pool: Pool): (r: (nat, Pool))
    requires PoolValid(pool)
    ensures r.0 < pool.size
    ensures PoolValid(r.1) && r.1.size == pool.size
    ensures r.1.next == (r.0 + 1) % pool.size
  {
    (pool.next, pool.(next := (pool.next + 1) % pool.size))
  }

  /** The workers handed out by `n` successive `getWorker` calls. */
  function Assignments(pool: Pool, n: nat): (ws: seq<nat>)
    requires PoolValid(pool)
    ensures |ws| == n
    ensures forall i :: 0 <= i < n ==> ws[i] < pool.size
    decreases n
  {
    if n == 0 then [] else
      var (w, pool') := GetWorker(pool);
      [w] + Assignments(pool', n - 1)
  }

  lemma MulAtLeast(d: int, m: int)
    requires d >= 1 && m > 0
    ensures d * m >= m
  {
  }

  /** Euclidean division has a unique quotient and remainder. */
  lemma DivModUnique(x: int, m: int, q: int, r: int)
    requires 0 < m && 0 <= r < m && x == q * m + r
    ensures x % m == r
  {
    var q' := x / m;
    var r' := x % m;
    assert x == q' * m + r';
    assert (q - q') * m == r' - r;
    if q > q' {
      MulAtLeast(q - q', m);
    } else if q < q' {
      MulAtLeast(q' - q, m);
    }
  }

  lemma ModPlusSize(b: nat, m: nat)
    requires 0 < m
    ensures (m + b) % m == b % m
  {
    var q := b / m;
    var r := b % m;
    assert b == q * m + r;
    assert m + b == (q + 1) * m + r;
    DivModUnique(m + b, m, q + 1, r);
  }

  lemma ModShift(a: nat, b: nat, m: nat)
    requires a < m
    ensures ((a + 1) % m + b) % m == (a + 1 + b) % m
  {
    if a + 1 < m {
      DivModUnique(a + 1, m, 0, a + 1);
    } else {
      DivModUnique(a + 1, m, 1, 0);
      ModPlusSize(b, m);
    }
  }

  /** The slot `i` places after the one following `next` is `i + 1` places after `next`. */
  lemma NextSlot(next: nat, size: nat, i: nat, w: int)
    requires next < size && 0 < i
    requires w == ((next + 1) % size + (i - 1)) % size
    ensures w == (next + i) % size
  {
    ModShift(next, i - 1, size);
  }

  /** Successive calls hand out next, next+1, ... wrapping around the pool: from a fresh pool
      the sequence is 0, 1, ..., size-1, 0, 1, ... */
  lemma RoundRobin(pool: Pool, n: nat)
    requires PoolValid(pool)
    ensures forall i :: 0 <= i < n ==> Assignments(pool, n)[i] == (pool.next + i) % pool.size
  {
    forall i | 0 <= i < n ensures Assignments(pool, n)[i] == (pool.next + i) % pool.size {
      AssignmentAt(pool, n, i);
    }
  }

  /** The `i`-th of `n` successive calls returns the worker `i` places after `next`. */
  lemma {:induction false} AssignmentAt(pool: Pool, n: nat, i: nat)
    requires PoolValid(pool) && i < n
    ensures Assignments(pool, n)[i] == (pool.next + i) % pool.size
    decreases i
  {
    if i == 0 {
      DivModUnique(pool.next, pool.size, 0, pool.next);
    } else {
      var pool' := GetWorker(pool).1;
      AssignmentAt(pool', n - 1, i - 1);
      var rest := Assignments(pool', n - 1);
      assert Assignments(pool, n) == [pool.next] + rest;
      assert Assignments(pool, n)[i] == rest[i - 1];
      NextSlot(pool.next, pool.size, i, rest[i - 1]);
    }
  }

  /** The result of `getOrCreateRoom`: the state after it and the room, or the message of
      the exception `createRouter` threw. */
  datatype Lookup = Lookup(state: State, room: Engine<Room>)

  /** `getOrCreateRoom` (with `createRoom` inlined). An unknown id takes a worker from the
      pool before the router is created, so a failed creation still advances the pool. */
  function GetOrCreateRoom(s: State, roomId: RoomId, router: Engine<()>): (r: Lookup)
    requires WellFormed(s)
    ensures WellFormed(r.state)
    ensures forall id :: id != roomId ==> Get(r.state.rooms, id) == Get(s.rooms, id)
    ensures HasKey(s.rooms, roomId) ==> r == Lookup(s, Done(Get(s.rooms, roomId).value))
    ensures !HasKey(s.rooms, roomId) && router.Done? ==>
      && r.room == Done(Room(roomId, s.pool.next, []))
      && Get(r.state.rooms, roomId) == Some(r.room.value)
      && |r.state.rooms| == |s.rooms| + 1
    ensures !HasKey(s.rooms, roomId) && router.Failed? ==>
      r.room == Failed(router.message) && r.state.rooms == s.rooms
    ensures !HasKey(s.rooms, roomId) ==>
      r.state.pool == s.pool.(next := (s.pool.next + 1) % s.pool.size)
  {
    match Get(s.rooms, roomId)
    case Some(room) => Lookup(s, Done(room))
    case None =>
      var (worker, pool') := GetWorker(s.pool);
      match router
      case Failed(msg) => Lookup(s.(pool := pool'), Failed(msg))
      case Done(_) =>
        var room := Room(roomId, worker, []);
        Lookup(State(pool', Set(s.rooms, roomId, room)), Done(room))
  }

  // ---------------------------------------------------------------------------------------
  // Socket handlers
  // ---------------------------------------------------------------------------------------

  /** The record join-room creates for the caller. */
  function NewPeer(caller: PeerId, username: string, roomId: RoomId): Peer {
    Peer(caller, username, roomId, [], [], [])
  }

  /** join-room: registers the caller (replacing any earlier record of it in that room) and
      tells the other members. */
  function JoinRoom(s: State, caller: PeerId, roomId: RoomId, username: string, router: Engine<()>): (r: Step)
    requires WellFormed(s)
    ensures WellFormed(r.state)
    ensures Invariant(s) ==> Invariant(r.state)
    ensures r.reply.Failure? <==> !HasKey(s.rooms, roomId) && router.Failed?
    ensures r.reply.Failure? ==> r.state.rooms == s.rooms && r.emits == []
    ensures !r.reply.Failure? ==>
      && PeerIn(r.state, roomId, caller) == Some(NewPeer(caller, username, roomId))
      && (forall p :: p != caller ==> PeerIn(r.state, roomId, p) == PeerIn(s, roomId, p))
      && r.reply == Joined(Get(r.state.rooms, roomId).value.worker)
      && r.emits == [Emit(ToRoomExcept(roomId, caller), PeerJoined(caller, username))]
    ensures forall id :: id != roomId ==> Get(r.state.rooms, id) == Get(s.rooms, id)
  {
    var l := GetOrCreateRoom(s, roomId, router);
    match l.room
    case Failed(msg) => Step(l.state, Failure(EngineError(msg)), [])
    case Done(room) =>
      var room' := room.(peers := Set(room.peers, caller, NewPeer(caller, username, roomId)));
      assert RoomWellFormed(roomId, room');
      var t := l.state.(rooms := Set(l.state.rooms, roomId, room'));
      Step(t, Joined(room.worker), [Emit(ToRoomExcept(roomId, caller), PeerJoined(caller, username))])
  }

  /** The room a handler acts on when it is not given a room id: the first registered room,
      in creation order, whose peer map contains the caller. */
  function FirstRoomOf(s: State, caller: PeerId): (r: Option<Room>)
    requires WellFormed(s)
    ensures r.Some? ==> Get(s.rooms, r.value.id) == Some(r.value) && HasKey(r.value.peers, caller)
    ensures r.Some? ==> forall j :: 0 <= j < IndexOf(s.rooms, r.value.id) ==> !HasKey(s.rooms[j].1.peers, caller)
    ensures r.None? <==> forall e :: e in s.rooms ==> !HasKey(e.1.peers, caller)
  {
    var i := FindIndex(s.rooms, (room: Room) => HasKey(room.peers, caller));
    if i < |s.rooms| then
      assert s.rooms[i] in s.rooms;
      IndexOfUnique(s.rooms, s.rooms[i].0, i);
      Some(s.rooms[i].1)
    else
      None
  }

  /** The caller's record in the room `FirstRoomOf` finds. */
  function CallerPeer(s: State, caller: PeerId): (r: Option<Peer>)
    requires WellFormed(s)
    ensures r.Some? <==> FirstRoomOf(s, caller).Some?
    ensures r.Some? ==> PeerIn(s, FirstRoomOf(s, caller).value.id, caller) == r
    ensures r.Some? ==> PeerWellFormed(caller, r.value)
  {
    match FirstRoomOf(s, caller)
    case None => None
    case Some(room) =>
      var p := Get(room.peers, caller);
      assert (room.id, room) in s.rooms;
      assert (caller, p.value) in room.peers;
      p
  }

  /** A change confined to the caller's record does not move the caller to another room. */
  lemma FirstRoomStable(s: State, t: State, caller: PeerId)
    requires WellFormed(s) && WellFormed(t)
    requires FirstRoomOf(s, caller).Some?
    requires OnlyPeerChanged(s, t, FirstRoomOf(s, caller).value.id, caller)
    requires PeerIn(t, FirstRoomOf(s, caller).value.id, caller).Some?
    ensures FirstRoomOf(t, caller).Some?
    ensures FirstRoomOf(t, caller).value.id == FirstRoomOf(s, caller).value.id
  {
    var rid := FirstRoomOf(s, caller).value.id;
    var i := IndexOf(s.rooms, rid);
    ChangedRoomStays(s, t, rid, caller);
    forall j | 0 <= j < i ensures !HasKey(t.rooms[j].1.peers, caller) {
      EarlierRoomKept(s, t, rid, caller, j);
    }
    FirstRoomAt(t, caller, i);
  }

  /** The changed room keeps its position and still holds the caller. */
  lemma ChangedRoomStays(s: State, t: State, rid: RoomId, caller: PeerId)
    requires WellFormed(s) && WellFormed(t) && OnlyPeerChanged(s, t, rid, caller)
    requires HasKey(s.rooms, rid) && PeerIn(t, rid, caller).Some?
    ensures var i := IndexOf(s.rooms, rid);
      i < |t.rooms| && t.rooms[i].1.id == rid && HasKey(t.rooms[i].1.peers, caller)
  {
    var i := IndexOf(s.rooms, rid);
    assert IndexOf(t.rooms, rid) == i && i < |t.rooms|;
    GetAt(t.rooms, rid, i);
    assert t.rooms[i] in t.rooms;
  }

  /** The room at position `i` is the first to hold the caller when none before it does. */
  lemma FirstRoomAt(t: State, caller: PeerId, i: nat)
    requires WellFormed(t) && i < |t.rooms| && HasKey(t.rooms[i].1.peers, caller)
    requires forall j :: 0 <= j < i ==> !HasKey(t.rooms[j].1.peers, caller)
    ensures FirstRoomOf(t, caller).Some? && FirstRoomOf(t, caller).value.id == t.rooms[i].1.id
  {
    assert t.rooms[i] in t.rooms;
    var r := FirstRoomOf(t, caller).value;
    var k := IndexOf(t.rooms, r.id);
    GetAt(t.rooms, r.id, k);
    assert t.rooms[k] in t.rooms;
  }

  /** A room registered before the changed one is the same room afterwards. */
  lemma EarlierRoomKept(s: State, t: State, rid: RoomId, caller: PeerId, j: nat)
    requires WellFormed(t) && OnlyPeerChanged(s, t, rid, caller)
    requires j < IndexOf(s.rooms, rid) && j < |t.rooms|
    ensures j < |s.rooms| && t.rooms[j].1 == s.rooms[j].1
  {
    var id := t.rooms[j].0;
    IndexOfUnique(t.rooms, id, j);
    assert IndexOf(s.rooms, id) == j && id != rid;
    GetAt(t.rooms, id, j);
    GetAt(s.rooms, id, j);
  }

  /** create-transport: registers the engine's new transport under the caller in the room
      NAMED by the request. Nothing limits a peer to one transport per direction. */
  function CreateTransport(s: State, caller: PeerId, roomId: RoomId, direction: string,
                           transport: Engine<TransportId>): (r: Step)
    requires WellFormed(s)
    ensures WellFormed(r.state)
    ensures Invariant(s) ==> Invariant(r.state)
    ensures r.emits == []
    ensures !HasKey(s.rooms, roomId) ==> r.reply == Failure(RoomNotFound)
    ensures HasKey(s.rooms, roomId) && transport.Failed? ==> r.reply == Failure(EngineError(transport.message))
    ensures HasKey(s.rooms, roomId) && transport.Done? && PeerIn(s, roomId, caller).None? ==>
      r.reply == Failure(PeerMissing)
    ensures r.reply.TransportCreated? <==> PeerIn(s, roomId, caller).Some? && transport.Done?
    ensures !r.reply.TransportCreated? ==> r.state == s
    ensures r.reply.TransportCreated? ==>
      r.reply.transportId == transport.value && PeerIn(r.state, roomId, caller).Some?
    ensures r.reply.TransportCreated? ==>
      var p := PeerIn(s, roomId, caller).value;
      var p' := PeerIn(r.state, roomId, caller).value;
      && Get(p'.transports, transport.value) == Some(direction)
      && (forall t :: t != transport.value ==> Get(p'.transports, t) == Get(p.transports, t))
      && p' == p.(transports := p'.transports)
      && OnlyPeerChanged(s, r.state, roomId, caller)
  {
    match Get(s.rooms, roomId)
    case None => Step(s, Failure(RoomNotFound), [])
    case Some(room) =>
      match transport
      case Failed(msg) => Step(s, Failure(EngineError(msg)), [])
      case Done(tid) =>
        match Get(room.peers, caller)
        case None => Step(s, Failure(PeerMissing), [])
        case Some(peer) =>
          assert (roomId, room) in s.rooms && (caller, peer) in room.peers;
          var peer' := peer.(transports := Set(peer.transports, tid, direction));
          Step(UpdatePeer(s, roomId, caller, peer'), TransportCreated(tid), [])
  }

  /** connect-transport: checks that the transport belongs to the caller and lets the engine
      connect it; the registry does not change. */
  function ConnectTransport(s: State, caller: PeerId, transportId: TransportId, connect: Engine<()>): (r: Step)
    requires WellFormed(s)
    ensures r.state == s && r.emits == []
    ensures CallerPeer(s, caller).None? ==> r.reply == Failure(RoomNotFound)
    ensures CallerPeer(s, caller).Some? && !HasKey(CallerPeer(s, caller).value.transports, transportId) ==>
      r.reply == Failure(TransportNotFound)
    ensures CallerPeer(s, caller).Some? && HasKey(CallerPeer(s, caller).value.transports, transportId) ==>
      r.reply == (if connect.Done? then Success else Failure(EngineError(connect.message)))
  {
    match CallerPeer(s, caller)
    case None => Step(s, Failure(RoomNotFound), [])
    case Some(peer) =>
      if !HasKey(peer.transports, transportId) then Step(s, Failure(TransportNotFound), [])
      else
        match connect
        case Failed(msg) => Step(s, Failure(EngineError(msg)), [])
        case Done(_) => Step(s, Success, [])
  }

  /** produce: adds the engine's new producer to the caller and announces it to the other
      members of the caller's room. */
  function Produce(s: State, caller: PeerId, transportId: TransportId, kind: Kind,
                   producer: Engine<ProducerId>): (r: Step)
    requires WellFormed(s)
    ensures WellFormed(r.state)
    ensures Invariant(s) ==> Invariant(r.state)
    ensures CallerPeer(s, caller).None? ==> r.reply == Failure(RoomNotFound)
    ensures CallerPeer(s, caller).Some? && !HasKey(CallerPeer(s, caller).value.transports, transportId) ==>
      r.reply == Failure(TransportNotFound)
    ensures r.reply.Produced? <==>
      CallerPeer(s, caller).Some? && HasKey(CallerPeer(s, caller).value.transports, transportId) && producer.Done?
    ensures !r.reply.Produced? ==> r.state == s && r.emits == []
    ensures r.reply.Produced? ==>
      r.reply.producerId == producer.value && PeerIn(r.state, FirstRoomOf(s, caller).value.id, caller).Some?
    ensures r.reply.Produced? ==>
      var rid := FirstRoomOf(s, caller).value.id;
      var p := CallerPeer(s, caller).value;
      var p' := PeerIn(r.state, rid, caller).value;
      && Get(p'.producers, producer.value) == Some(kind)
      && (forall q :: q != producer.value ==> Get(p'.producers, q) == Get(p.producers, q))
      && p' == p.(producers := p'.producers)
      && OnlyPeerChanged(s, r.state, rid, caller)
      && r.emits == [Emit(ToRoomExcept(rid, caller), NewProducer(caller, producer.value, kind))]
  {
    match FirstRoomOf(s, caller)
    case None => Step(s, Failure(RoomNotFound), [])
    case Some(room) =>
      var peer := CallerPeer(s, caller).value;
      if !HasKey(peer.transports, transportId) then Step(s, Failure(TransportNotFound), [])
      else
        match producer
        case Failed(msg) => Step(s, Failure(EngineError(msg)), [])
        case Done(pid) =>
          var peer' := peer.(producers := Set(peer.producers, pid, kind));
          Step(UpdatePeer(s, room.id, caller, peer'), Produced(pid),
               [Emit(ToRoomExcept(room.id, caller), NewProducer(caller, pid, kind))])
  }

  predicate HasRecvTransport(p: Peer) {
    exists t :: t in p.transports && t.1 == Recv
  }

  /** Peer `i` is the first, in join order, whose producer map contains `producerId`. */
  predicate FirstOwnerAt(peers: Entries<PeerId, Peer>, producerId: ProducerId, i: nat) {
    && i < |peers| && HasKey(peers[i].1.producers, producerId)
    && forall j :: 0 <= j < i ==> !HasKey(peers[j].1.producers, producerId)
  }

  /** The id of the first peer, in join order, whose producer map contains `producerId`. */
  function ProducerOwner(peers: Entries<PeerId, Peer>, producerId: ProducerId): (r: Option<PeerId>)
    ensures r.Some? ==> exists e :: e in peers && e.1.id == r.value && HasKey(e.1.producers, producerId)
    ensures r.Some? ==> exists i :: 0 <= i < |peers| && FirstOwnerAt(peers, producerId, i) && peers[i].1.id == r.value
    ensures r.None? <==> forall e :: e in peers ==> !HasKey(e.1.producers, producerId)
  {
    var i := FindIndex(peers, (p: Peer) => HasKey(p.producers, producerId));
    if i < |peers| then
      assert peers[i] in peers;
      Some(peers[i].1.id)
    else
      None
  }

  /** consume: after the engine's capability check and a receive transport of the caller,
      adds a paused consumer to the caller and reports which peer owns the producer. */
  function Consume(s: State, caller: PeerId, producerId: ProducerId, canConsume: bool,
                   consumer: Engine<(ConsumerId, Kind)>): (r: Step)
    requires WellFormed(s)
    ensures WellFormed(r.state)
    ensures Invariant(s) ==> Invariant(r.state)
    ensures r.emits == []
    ensures CallerPeer(s, caller).None? ==> r.reply == Failure(RoomNotFound)
    ensures CallerPeer(s, caller).Some? && !canConsume ==> r.reply == Failure(CannotConsume)
    ensures CallerPeer(s, caller).Some? && canConsume && !HasRecvTransport(CallerPeer(s, caller).value) ==>
      r.reply == Failure(RecvTransportNotFound)
    ensures r.reply.Consumed? <==>
      CallerPeer(s, caller).Some? && canConsume && HasRecvTransport(CallerPeer(s, caller).value) && consumer.Done?
    ensures !r.reply.Consumed? ==> r.state == s
    ensures r.reply.Consumed? ==>
      && r.reply.consumerId == consumer.value.0
      && r.reply.producerId == producerId
      && r.reply.kind == consumer.value.1
      && PeerIn(r.state, FirstRoomOf(s, caller).value.id, caller).Some?
    ensures r.reply.Consumed? ==>
      var room := FirstRoomOf(s, caller).value;
      var p := CallerPeer(s, caller).value;
      var p' := PeerIn(r.state, room.id, caller).value;
      && Get(p'.consumers, consumer.value.0) == Some(Consumer(producerId, consumer.value.1, true))
      && (forall c :: c != consumer.value.0 ==> Get(p'.consumers, c) == Get(p.consumers, c))
      && p' == p.(consumers := p'.consumers)
      && OnlyPeerChanged(s, r.state, room.id, caller)
      && r.reply.peerId == ProducerOwner(room.peers, producerId)
  {
    match FirstRoomOf(s, caller)
    case None => Step(s, Failure(RoomNotFound), [])
    case Some(room) =>
      if !canConsume then Step(s, Failure(CannotConsume), [])
      else
        var peer := CallerPeer(s, caller).value;
        var t := FindIndex(peer.transports, (d: string) => d == Recv);
        if t == |peer.transports| then
          assert !HasRecvTransport(peer) by {
            forall e | e in peer.transports ensures e.1 != Recv {
              var j :| 0 <= j < |peer.transports| && peer.transports[j] == e;
            }
          }
          Step(s, Failure(RecvTransportNotFound), [])
        else
          assert peer.transports[t] in peer.transports;
          match consumer
          case Failed(msg) => Step(s, Failure(EngineError(msg)), [])
          case Done((cid, kind)) =>
            var peer' := peer.(consumers := Set(peer.consumers, cid, Consumer(producerId, kind, true)));
            // The new consumer changes no producer map, so the owner is looked up in the
            // room's peers as they were.
            Step(UpdatePeer(s, room.id, caller, peer'), Consumed(cid, producerId, ProducerOwner(room.peers, producerId), kind), [])
  }

  /** resume-consumer: marks one of the caller's own consumers active. */
  function ResumeConsumer(s: State, caller: PeerId, consumerId: ConsumerId, resume: Engine<()>): (r: Step)
    requires WellFormed(s)
    ensures WellFormed(r.state)
    ensures Invariant(s) ==> Invariant(r.state)
    ensures r.emits == []
    ensures CallerPeer(s, caller).None? ==> r.reply == Failure(RoomNotFound)
    ensures CallerPeer(s, caller).Some? && !HasKey(CallerPeer(s, caller).value.consumers, consumerId) ==>
      r.reply == Failure(ConsumerNotFound)
    ensures r.reply == Success <==>
      CallerPeer(s, caller).Some? && HasKey(CallerPeer(s, caller).value.consumers, consumerId) && resume.Done?
    ensures r.reply != Success ==> r.state == s
    ensures r.reply == Success ==> PeerIn(r.state, FirstRoomOf(s, caller).value.id, caller).Some?
    ensures r.reply == Success ==>
      var rid := FirstRoomOf(s, caller).value.id;
      var p := CallerPeer(s, caller).value;
      var p' := PeerIn(r.state, rid, caller).value;
      && Get(p'.consumers, consumerId) == Some(Get(p.consumers, consumerId).value.(paused := false))
      && (forall c :: c != consumerId ==> Get(p'.consumers, c) == Get(p.consumers, c))
      && p' == p.(consumers := p'.consumers)
      && OnlyPeerChanged(s, r.state, rid, caller)
      && (!Get(p.consumers, consumerId).value.paused ==> r.state == s)
  {
    match FirstRoomOf(s, caller)
    case None => Step(s, Failure(RoomNotFound), [])
    case Some(room) =>
      var peer := CallerPeer(s, caller).value;
      match Get(peer.consumers, consumerId)
      case None => Step(s, Failure(ConsumerNotFound), [])
      case Some(c) =>
        match resume
        case Failed(msg) => Step(s, Failure(EngineError(msg)), [])
        case Done(_) =>
          var peer' := peer.(consumers := Set(peer.consumers, consumerId, c.(paused := false)));
          Step(UpdatePeer(s, room.id, caller, peer'), Success, [])
  }

  /** Resuming twice is resuming once: the second call succeeds and changes nothing. */
  lemma ResumeIdempotent(s: State, caller: PeerId, consumerId: ConsumerId)
    requires WellFormed(s)
    requires ResumeConsumer(s, caller, consumerId, Done(())).reply == Success
    ensures var t := ResumeConsumer(s, caller, consumerId, Done(())).state;
      ResumeConsumer(t, caller, consumerId, Done(())) == Step(t, Success, [])
  {
    var t := ResumeConsumer(s, caller, consumerId, Done(())).state;
    FirstRoomStable(s, t, caller);
  }

  /** The producers of `peers` as `get-producers` lists them: each tagged with its owner. */
  ghost predicate Publishes(peers: Entries<PeerId, Peer>, info: ProducerInfo) {
    exists p :: (info.peerId, p) in peers && (info.producerId, info.kind) in p.producers
  }

  /** One peer's producers, in insertion order, tagged with the peer's id. */
  function Tagged(peerId: PeerId, producers: Entries<ProducerId, Kind>): (r: seq<ProducerInfo>)
    ensures |r| == |producers|
    ensures forall i :: 0 <= i < |r| ==> r[i] == ProducerInfo(peerId, producers[i].0, producers[i].1)
    ensures forall info :: info in r <==> info.peerId == peerId && (info.producerId, info.kind) in producers
    decreases |producers|
  {
    if |producers| == 0 then []
    else [ProducerInfo(peerId, producers[0].0, producers[0].1)] + Tagged(peerId, producers[1..])
  }

  /** How many producers the peers other than `caller` hold between them. */
  function PublishedBy(peers: Entries<PeerId, Peer>, caller: PeerId): nat
    decreases |peers|
  {
    if |peers| == 0 then 0
    else (if peers[0].0 != caller then |peers[0].1.producers| else 0) + PublishedBy(peers[1..], caller)
  }

  /** `a` comes before `b` in the order get-producers walks the room: by peer in join order,
      and within one peer by producer in creation order. */
  predicate ListedBefore(peers: Entries<PeerId, Peer>, a: ProducerInfo, b: ProducerInfo) {
    var i := IndexOf(peers, a.peerId);
    var j := IndexOf(peers, b.peerId);
    || i < j
    || (i == j < |peers| && IndexOf(peers[i].1.producers, a.producerId) < IndexOf(peers[i].1.producers, b.producerId))
  }

  /** `r` lists producers once each, strictly in the walk order of `peers`. */
  predicate WalkOrdered(peers: Entries<PeerId, Peer>, r: seq<ProducerInfo>) {
    forall i, j :: 0 <= i < j < |r| ==> ListedBefore(peers, r[i], r[j]) && r[i] != r[j]
  }

  /** The `forEach` of get-producers: every producer of every peer other than `caller`, one
      entry per producer held (`CollectOrder` gives the order). */
  function Collect(peers: Entries<PeerId, Peer>, caller: PeerId): (r: seq<ProducerInfo>)
    ensures forall info :: info in r <==> info.peerId != caller && Publishes(peers, info)
    ensures |r| == PublishedBy(peers, caller)
    decreases |peers|
  {
    if |peers| == 0 then []
    else
      var mine := if peers[0].0 != caller then Tagged(peers[0].0, peers[0].1.producers) else [];
      var rest := Collect(peers[1..], caller);
      forall info ensures info in mine + rest <==> info.peerId != caller && Publishes(peers, info) {
        if info.peerId != caller && Publishes(peers, info) {
          var p :| (info.peerId, p) in peers && (info.producerId, info.kind) in p.producers;
          if (info.peerId, p) != peers[0] {
            assert (info.peerId, p) in peers[1..];
          }
        }
        if info in rest {
          var p :| (info.peerId, p) in peers[1..] && (info.producerId, info.kind) in p.producers;
          assert (info.peerId, p) in peers;
        }
        if info in mine {
          assert (info.peerId, peers[0].1) in peers;
        }
      }
      mine + rest
  }

  /** In a room whose peers and producers have distinct ids, get-producers lists each
      producer once, strictly in walk order: peers in join order, each peer's producers in
      creation order. With the membership and the length of `Collect`, this pins the list. */
  lemma {:induction false} CollectOrder(peers: Entries<PeerId, Peer>, caller: PeerId)
    requires DistinctKeys(peers) && forall e :: e in peers ==> DistinctKeys(e.1.producers)
    ensures WalkOrdered(peers, Collect(peers, caller))
    decreases |peers|
  {
    if |peers| > 0 {
      var r := Collect(peers, caller);
      var mine := if peers[0].0 != caller then Tagged(peers[0].0, peers[0].1.producers) else [];
      var rest := Collect(peers[1..], caller);
      CollectUnfold(peers, caller);
      assert peers[0] in peers;
      forall e | e in peers[1..] ensures DistinctKeys(e.1.producers) {
        assert e in peers;
      }
      CollectOrder(peers[1..], caller);
      assert |mine| == 0 || mine == Tagged(peers[0].0, peers[0].1.producers);
      forall k | 0 <= k < |rest| ensures rest[k].peerId != peers[0].0 {
        assert rest[k] in rest;
        LaterPeer(peers, rest[k]);
      }
      ConcatOrder(peers, mine, rest);
      forall i, j | 0 <= i < j < |r| ensures r[i] != r[j] {
        assert ListedBefore(peers, r[i], r[j]);
      }
    }
  }

  lemma CollectUnfold(peers: Entries<PeerId, Peer>, caller: PeerId)
    requires |peers| > 0
    ensures Collect(peers, caller)
      == (if peers[0].0 != caller then Tagged(peers[0].0, peers[0].1.producers) else []) + Collect(peers[1..], caller)
  {
  }

  /** The first peer's tagged producers, then a walk-ordered list of later peers' producers,
      are in walk order. */
  lemma ConcatOrder(peers: Entries<PeerId, Peer>, mine: seq<ProducerInfo>, rest: seq<ProducerInfo>)
    requires |peers| > 0 && DistinctKeys(peers[0].1.producers) && |mine| <= |peers[0].1.producers|
    requires forall k :: 0 <= k < |mine| ==>
      mine[k] == ProducerInfo(peers[0].0, peers[0].1.producers[k].0, peers[0].1.producers[k].1)
    requires forall k :: 0 <= k < |rest| ==> rest[k].peerId != peers[0].0
    requires forall i, j :: 0 <= i < j < |rest| ==> ListedBefore(peers[1..], rest[i], rest[j])
    ensures forall i, j :: 0 <= i < j < |mine + rest| ==> ListedBefore(peers, (mine + rest)[i], (mine + rest)[j])
  {
    var r := mine + rest;
    forall i, j | 0 <= i < j < |r| ensures ListedBefore(peers, r[i], r[j]) {
      if j < |mine| {
        IndexOfAt(peers[0].1.producers, i);
        IndexOfAt(peers[0].1.producers, j);
      } else if i >= |mine| {
        ListedBeforeShift(peers, rest[i - |mine|], rest[j - |mine|]);
      } else {
        assert r[j] == rest[j - |mine|];
        assert IndexOf(peers, r[j].peerId) > 0;
      }
    }
  }

  /** A producer of a later peer does not belong to the first peer. */
  lemma LaterPeer(peers: Entries<PeerId, Peer>, info: ProducerInfo)
    requires DistinctKeys(peers) && |peers| > 0 && Publishes(peers[1..], info)
    ensures info.peerId != peers[0].0
  {
    var p :| (info.peerId, p) in peers[1..] && (info.producerId, info.kind) in p.producers;
    var k :| 0 <= k < |peers[1..]| && peers[1..][k] == (info.peerId, p);
    assert peers[k + 1] == (info.peerId, p);
  }

  /** Under distinct keys, the key at position `i` is found at `i`. */
  lemma IndexOfAt<K, V>(m: Entries<K, V>, i: nat)
    requires DistinctKeys(m) && i < |m|
    ensures IndexOf(m, m[i].0) == i
  {
    IndexOfUnique(m, m[i].0, i);
  }

  /** The walk order of the later peers is kept when the first peer is put back in front. */
  lemma ListedBeforeShift(peers: Entries<PeerId, Peer>, a: ProducerInfo, b: ProducerInfo)
    requires |peers| > 0 && a.peerId != peers[0].0 && b.peerId != peers[0].0
    requires ListedBefore(peers[1..], a, b)
    ensures ListedBefore(peers, a, b)
  {
    assert IndexOf(peers, a.peerId) == 1 + IndexOf(peers[1..], a.peerId);
    assert IndexOf(peers, b.peerId) == 1 + IndexOf(peers[1..], b.peerId);
  }

  /** get-producers: a snapshot of the producers of every OTHER peer of the room named by the
      request; an unknown room gives an empty list. The caller need not be a member. */
  function GetProducers(s: State, caller: PeerId, roomId: RoomId): (r: Step)
    requires WellFormed(s)
    ensures r.state == s && r.emits == [] && r.reply.Producers?
    ensures !HasKey(s.rooms, roomId) ==> r.reply.producers == []
    ensures HasKey(s.rooms, roomId) ==>
      var peers := Get(s.rooms, roomId).value.peers;
      && (forall info :: info in r.reply.producers <==> info.peerId != caller && Publishes(peers, info))
      && |r.reply.producers| == PublishedBy(peers, caller)
      && WalkOrdered(peers, r.reply.producers)
  {
    match Get(s.rooms, roomId)
    case None => Step(s, Producers([]), [])
    case Some(room) =>
      assert RoomWellFormed(roomId, room);
      forall e | e in room.peers ensures DistinctKeys(e.1.producers) {
        assert PeerWellFormed(e.0, e.1);
      }
      CollectOrder(room.peers, caller);
      Step(s, Producers(Collect(room.peers, caller)), [])
  }

  /** disconnect: removes the caller from the first room that contains it, tells the rest of
      that room, and deletes the room once nobody is left. Other rooms the same socket may
      have joined keep their record of it. */
  function Disconnect(s: State, caller: PeerId): (r: Step)
    requires WellFormed(s)
    ensures WellFormed(r.state)
    ensures Invariant(s) ==> Invariant(r.state)
    ensures r.reply == NoReply && r.state.pool == s.pool
    ensures FirstRoomOf(s, caller).None? ==> r.state == s && r.emits == []
    ensures FirstRoomOf(s, caller).Some? ==>
      var room := FirstRoomOf(s, caller).value;
      && PeerIn(r.state, room.id, caller).None?
      && (forall p :: p != caller ==> PeerIn(r.state, room.id, p) == PeerIn(s, room.id, p))
      && (forall id :: id != room.id ==> Get(r.state.rooms, id) == Get(s.rooms, id))
      && (!HasKey(r.state.rooms, room.id) <==> |room.peers| == 1)
      && (HasKey(r.state.rooms, room.id) ==> Get(r.state.rooms, room.id).value.worker == room.worker)
      && r.emits == [Emit(ToRoomExcept(room.id, caller), PeerLeft(caller))]
  {
    match FirstRoomOf(s, caller)
    case None => Step(s, NoReply, [])
    case Some(room) =>
      assert (room.id, room) in s.rooms;
      var peers' := Delete(room.peers, caller);
      var rooms' := if |peers'| == 0 then Delete(s.rooms, room.id)
                    else Set(s.rooms, room.id, room.(peers := peers'));
      Step(s.(rooms := rooms'), NoReply, [Emit(ToRoomExcept(room.id, caller), PeerLeft(caller))])
  }

  /** Which engine event closed a server-side consumer. */
  datatype CloseCause = TransportClose | ProducerClose

  /** A producer's 'transportclose' callback: the producer leaves its owner's map. */
  function ProducerTransportClosed(s: State, roomId: RoomId, peerId: PeerId, producerId: ProducerId): (r: Step)
    requires WellFormed(s)
    ensures WellFormed(r.state)
    ensures Invariant(s) ==> Invariant(r.state)
    ensures r.reply == NoReply && r.emits == []
    ensures PeerIn(s, roomId, peerId).None? ==> r.state == s
    ensures PeerIn(s, roomId, peerId).Some? ==> PeerIn(r.state, roomId, peerId).Some?
    ensures PeerIn(s, roomId, peerId).Some? ==>
      var p := PeerIn(s, roomId, peerId).value;
      var p' := PeerIn(r.state, roomId, peerId).value;
      && !HasKey(p'.producers, producerId)
      && (forall q :: q != producerId ==> Get(p'.producers, q) == Get(p.producers, q))
      && p' == p.(producers := p'.producers)
      && OnlyPeerChanged(s, r.state, roomId, peerId)
  {
    match PeerIn(s, roomId, peerId)
    case None => Step(s, NoReply, [])
    case Some(peer) =>
      var room := Get(s.rooms, roomId).value;
      assert (roomId, room) in s.rooms && (peerId, peer) in room.peers;
      Step(UpdatePeer(s, roomId, peerId, peer.(producers := Delete(peer.producers, producerId))), NoReply, [])
  }

  /** A consumer's 'transportclose' or 'producerclose' callback: the consumer leaves its
      owner's map, and a closed producer is reported to the consumer's own socket. */
  function ConsumerClosedByEngine(s: State, roomId: RoomId, peerId: PeerId, consumerId: ConsumerId,
                                  cause: CloseCause): (r: Step)
    requires WellFormed(s)
    ensures WellFormed(r.state)
    ensures Invariant(s) ==> Invariant(r.state)
    ensures r.reply == NoReply
    ensures r.emits == if cause == ProducerClose then [Emit(ToSocket(peerId), ConsumerClosed(consumerId))] else []
    ensures PeerIn(s, roomId, peerId).None? ==> r.state == s
    ensures PeerIn(s, roomId, peerId).Some? ==> PeerIn(r.state, roomId, peerId).Some?
    ensures PeerIn(s, roomId, peerId).Some? ==>
      var p := PeerIn(s, roomId, peerId).value;
      var p' := PeerIn(r.state, roomId, peerId).value;
      && !HasKey(p'.consumers, consumerId)
      && (forall c :: c != consumerId ==> Get(p'.consumers, c) == Get(p.consumers, c))
      && p' == p.(consumers := p'.consumers)
      && OnlyPeerChanged(s, r.state, roomId, peerId)
  {
    var emits := if cause == ProducerClose then [Emit(ToSocket(peerId), ConsumerClosed(consumerId))] else [];
    match PeerIn(s, roomId, peerId)
    case None => Step(s, NoReply, emits)
    case Some(peer) =>
      var room := Get(s.rooms, roomId).value;
      assert (roomId, room) in s.rooms && (peerId, peer) in room.peers;
      Step(UpdatePeer(s, roomId, peerId, peer.(consumers := Delete(peer.consumers, consumerId))), NoReply, emits)
  }

  // ---------------------------------------------------------------------------------------
  // Properties spanning several handlers
  // ---------------------------------------------------------------------------------------

  /** A room is not reused: once its last peer has disconnected, the next join with the same
      id creates a room whose only peer is the new joiner, with no transports, producers or
      consumers carried over. */
  lemma RejoinAfterLastLeaveStartsEmpty(s: State, caller: PeerId, joiner: PeerId, username: string)
    requires Invariant(s)
    requires FirstRoomOf(s, caller).Some? && |FirstRoomOf(s, caller).value.peers| == 1
    ensures var rid := FirstRoomOf(s, caller).value.id;
      var t := Disconnect(s, caller).state;
      var u := JoinRoom(t, joiner, rid, username, Done(())).state;
      && Get(u.rooms, rid).Some?
      && Get(u.rooms, rid).value.peers == [(joiner, NewPeer(joiner, username, rid))]
  {
    var rid := FirstRoomOf(s, caller).value.id;
    var t := Disconnect(s, caller).state;
    assert !HasKey(t.rooms, rid);
  }

  /** A producer announced by `produce` is part of the next `get-producers` snapshot of every
      other member of the producer's room, tagged with its owner, and never part of the
      owner's own snapshot. */
  lemma ProducedIsListedForOthers(s: State, owner: PeerId, transportId: TransportId, kind: Kind,
                                  producerId: ProducerId, other: PeerId)
    requires WellFormed(s)
    requires Produce(s, owner, transportId, kind, Done(producerId)).reply.Produced?
    requires other != owner
    ensures var rid := FirstRoomOf(s, owner).value.id;
      var t := Produce(s, owner, transportId, kind, Done(producerId)).state;
      && ProducerInfo(owner, producerId, kind) in GetProducers(t, other, rid).reply.producers
      && ProducerInfo(owner, producerId, kind) !in GetProducers(t, owner, rid).reply.producers
  {
    var rid := FirstRoomOf(s, owner).value.id;
    var t := Produce(s, owner, transportId, kind, Done(producerId)).state;
    var p' := PeerIn(t, rid, owner).value;
    var room := Get(t.rooms, rid).value;
    assert (owner, p') in room.peers;
    assert (producerId, kind) in p'.producers;
    assert Publishes(room.peers, ProducerInfo(owner, producerId, kind));
  }
}
