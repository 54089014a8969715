/**
 One relay instance's view of its rooms: a mirror of the peers it holds in Redis, the repairs it owes
 after an outage, and the recovery that pays them.
 */
module RelayCoordinator {
  import opened RelayTypes
  import opened RedisStore
  import opened LocalCoordinator

  /** The fields of a coordinator that its handlers update. */
  datatype Instance = Instance(
    rooms: Rooms,
    pendingEmpty: set<RoomId>,
    pendingPeerLeft: seq<CoordinatorMessage>,
    readyForJoins: bool)
  {
    predicate Holds(room: RoomId, peer: PeerId) {
      room in rooms && peer in rooms[room].peers
    }

    function Protocol(room: RoomId, peer: PeerId): Option<Capabilities>
      requires Holds(room, peer)
    {
      rooms[room].peers[peer]
    }
  }

  const NEW_INSTANCE := Instance(map[], {}, [], false)

  function RecordJoin(inst: Instance, room: RoomId, peer: PeerId, protocol: Option<Capabilities>, maxPeers: Option<int>)
    : Instance
  {
    var current := RoomOrNew(inst.rooms, room, maxPeers);
    inst.(rooms := inst.rooms[room := current.(peers := current.peers[peer := protocol])])
  }

  /** The synchronous part of `leave`: drop the peer, and owe a sync if the room emptied during an outage. */
  function RecordLeave(inst: Instance, ready: bool, room: RoomId, peer: PeerId): Instance {
    var rooms := LocalLeave(inst.rooms, room, peer);
    if ready then inst.(rooms := rooms, pendingEmpty := inst.pendingEmpty - {room})
    else if room in rooms then inst.(rooms := rooms)
    else inst.(rooms := rooms, pendingEmpty := inst.pendingEmpty + {room})
  }

  function RecordPublish(inst: Instance, ready: bool, message: CoordinatorMessage): Instance {
    if !ready && message.PeerLeft? then inst.(pendingPeerLeft := inst.pendingPeerLeft + [message]) else inst
  }

  /** The end of a recovery: forget the repairs it took a copy of, and accept joins again. */
  function FinishRecovery(inst: Instance, empties: set<RoomId>, total: nat): Instance
    requires total <= |inst.pendingPeerLeft|
  {
    inst.(pendingEmpty := inst.pendingEmpty - empties,
          pendingPeerLeft := inst.pendingPeerLeft[total..],
          readyForJoins := true)
  }

  function SyncRequestFor(id: InstanceId, room: RoomId, local: LocalRoom): SyncRequest {
    SyncRequest(room, id, local.peers, local.capacity)
  }

  function EmptySyncRequest(id: InstanceId, room: RoomId): SyncRequest {
    SyncRequest(room, id, map[], None)
  }

  /** The entries Redis attributes to `id` in `room` are exactly the peers the instance holds there. */
  ghost predicate Exact(db: Db, id: InstanceId, rooms: Rooms, room: RoomId) {
    forall p :: db.Owns(id, room, p) <==> room in rooms && p in rooms[room].peers
  }

  /** Somebody is in every room; an emptied one is forgotten. */
  ghost predicate Occupied(rooms: Rooms) {
    forall r | r in rooms :: rooms[r].peers != map[]
  }

  class RedisRelayRoomCoordinator {
    const store: RelayRedisStore
    var localRooms: Rooms
    var pendingEmptyRoomSyncs: set<RoomId>
    var pendingPeerLeftMessages: seq<CoordinatorMessage>
    var readyForJoins: bool

    function Abs(): Instance
      reads this
    {
      Instance(localRooms, pendingEmptyRoomSyncs, pendingPeerLeftMessages, readyForJoins)
    }

    constructor (store: RelayRedisStore)
      ensures this.store == store && Abs() == NEW_INSTANCE
    {
      this.store := store;
      localRooms, pendingEmptyRoomSyncs, pendingPeerLeftMessages, readyForJoins := map[], {}, [], false;
    }

    predicate IsReady()
      reads this, store
    {
      store.ready && readyForJoins
    }

    method Join(room: RoomId, peer: PeerId, protocol: Option<Capabilities>, maxPeers: Option<int>)
        returns (reply: JoinReply)
      modifies this, store.server`db
      ensures !old(IsReady()) ==>
                reply == Rejected(RedisUnavailable) && Abs() == old(Abs()) && store.server.db == old(store.server.db)
      ensures old(IsReady()) ==>
                && (store.server.db, reply) ==
                   JoinScript(old(store.server.db), room, peer, StoredPeer(store.instanceId, protocol), maxPeers)
                && Abs() == if reply.Accepted? then RecordJoin(old(Abs()), room, peer, protocol, maxPeers) else old(Abs())
      ensures reply.Accepted? ==> Abs().Holds(room, peer) && Abs().Protocol(room, peer) == protocol
      ensures reply.Accepted? ==>
                localRooms[room].capacity == if room in old(localRooms) then old(localRooms)[room].capacity else maxPeers
      ensures forall r :: r != room && r in old(localRooms) ==> r in localRooms && localRooms[r] == old(localRooms)[r]
      ensures forall r, p :: (r, p) != (room, peer) ==> (Abs().Holds(r, p) <==> old(Abs()).Holds(r, p))
      ensures old(Occupied(localRooms)) ==> Occupied(localRooms)
    {
      if !IsReady() {
        return Rejected(RedisUnavailable);
      }
      reply := store.JoinRoom(room, peer, protocol, maxPeers);
      if !reply.Accepted? {
        return;
      }
      var current := if room in localRooms then localRooms[room] else LocalRoom(map[], maxPeers);
      localRooms := localRooms[room := current.(peers := current.peers[peer := protocol])];
    }

    method Leave(room: RoomId, peer: PeerId)
      modifies this, store.server`db
      ensures Abs() == RecordLeave(old(Abs()), old(IsReady()), room, peer)
      ensures store.server.db ==
              if old(IsReady()) then LeaveScript(old(store.server.db), room, peer) else old(store.server.db)
      ensures forall r, p :: Abs().Holds(r, p) <==> old(Abs()).Holds(r, p) && (r, p) != (room, peer)
      ensures pendingEmptyRoomSyncs == if old(IsReady()) then old(pendingEmptyRoomSyncs) - {room}
                                       else if room in localRooms then old(pendingEmptyRoomSyncs)
                                       else old(pendingEmptyRoomSyncs) + {room}
      ensures old(Occupied(localRooms)) ==> Occupied(localRooms)
    {
      var roomStillActive := RemoveLocalPeer(room, peer);
      if !IsReady() {
        if !roomStillActive {
          pendingEmptyRoomSyncs := pendingEmptyRoomSyncs + {room};
        }
        return;
      }
      pendingEmptyRoomSyncs := pendingEmptyRoomSyncs - {room};
      store.LeaveRoom(room, peer);
    }

    method RemoveLocalPeer(room: RoomId, peer: PeerId) returns (active: bool)
      modifies this`localRooms
      ensures localRooms == LocalLeave(old(localRooms), room, peer)
      ensures active <==> room in localRooms
      ensures forall r, p :: Abs().Holds(r, p) <==> old(Abs()).Holds(r, p) && (r, p) != (room, peer)
      ensures old(Occupied(localRooms)) ==> Occupied(localRooms)
    {
      if room !in localRooms {
        return false;
      }
      var peers := localRooms[room].peers - {peer};
      if |peers| == 0 {
        localRooms := localRooms - {room};
        return false;
      }
      localRooms := localRooms[room := localRooms[room].(peers := peers)];
      active := true;
    }

    method Publish(message: CoordinatorMessage)
      modifies this, store.server`published
      ensures Abs() == RecordPublish(old(Abs()), old(IsReady()), message)
      ensures store.server.published == old(store.server.published) +
              if old(IsReady()) then [Envelope(store.instanceId, message)] else []
      ensures pendingPeerLeftMessages == old(pendingPeerLeftMessages) +
              if !old(IsReady()) && message.PeerLeft? then [message] else []
    {
      if !IsReady() {
        if message.PeerLeft? {
          pendingPeerLeftMessages := pendingPeerLeftMessages + [message];
        }
        return;
      }
      store.Publish(message);
    }

    /** A whole recovery with nothing interleaved: Redis ends up attributing to this instance what it holds. */
    method RecoverFromReconnect()
      requires pendingEmptyRoomSyncs !! localRooms.Keys && Occupied(localRooms)
      modifies this, store.server
      ensures localRooms == old(localRooms) && pendingEmptyRoomSyncs == {} && pendingPeerLeftMessages == []
      ensures readyForJoins
      ensures forall r | r in old(localRooms.Keys + pendingEmptyRoomSyncs) ::
                Exact(store.server.db, store.instanceId, localRooms, r)
      ensures forall r, p :: !old(store.server.db).Owns(store.instanceId, r, p) && !Abs().Holds(r, p) ==>
                store.server.db.Entry(r, p) == old(store.server.db).Entry(r, p)
      ensures forall r :: store.server.db.Capacity(r) ==
                if old(store.server.db.Capacity(r)).Some? || r !in old(localRooms) then old(store.server.db.Capacity(r))
                else old(localRooms)[r].capacity
      ensures Replays(store.instanceId, old(pendingPeerLeftMessages), old(store.server.published), store.server.published)
    {
      readyForJoins := false;
      SyncLocalRooms();
      var pendingEmptyRooms := pendingEmptyRoomSyncs;
      SyncEmptyRooms(pendingEmptyRooms);
      var pending := pendingPeerLeftMessages;
      PublishPending(pending);
      pendingEmptyRoomSyncs := pendingEmptyRoomSyncs - pendingEmptyRooms;
      pendingPeerLeftMessages := pendingPeerLeftMessages[|pending|..];
      readyForJoins := true;
    }

    method SyncLocalRooms()
      requires Occupied(localRooms)
      modifies store.server`db
      ensures forall r | r in localRooms :: Exact(store.server.db, store.instanceId, localRooms, r)
      ensures Repaired(old(store.server.db), store.server.db, store.instanceId, localRooms)
      ensures forall r :: store.server.db.Capacity(r) ==
                if old(store.server.db.Capacity(r)).Some? || r !in localRooms then old(store.server.db.Capacity(r))
                else localRooms[r].capacity
    {
      var id := store.instanceId;
      ghost var before := store.server.db;
      var unsynced := localRooms.Keys;
      while unsynced != {}
        invariant unsynced <= localRooms.Keys
        invariant forall r | r in localRooms.Keys - unsynced :: Exact(store.server.db, id, localRooms, r)
        invariant Repaired(before, store.server.db, id, localRooms)
        invariant CapacitiesRestored(before, store.server.db, localRooms, localRooms.Keys - unsynced)
      {
        var room :| room in unsynced;
        ghost var done := localRooms.Keys - unsynced;
        unsynced := unsynced - {room};
        ghost var db0 := store.server.db;
        store.SyncRoom(SyncRequestFor(id, room, localRooms[room]));
        SyncedRepairs(before, db0, store.server.db, SyncRequestFor(id, room, localRooms[room]), localRooms, done);
        SyncedCapacity(before, db0, store.server.db, id, room, localRooms, done);
        assert localRooms.Keys - unsynced == done + {room};
      }
      assert localRooms.Keys - unsynced == localRooms.Keys;
    }

    method SyncEmptyRooms(rooms: set<RoomId>)
      requires rooms !! localRooms.Keys
      requires forall r | r in localRooms :: Exact(store.server.db, store.instanceId, localRooms, r)
      modifies store.server`db
      ensures forall r | r in localRooms.Keys + rooms :: Exact(store.server.db, store.instanceId, localRooms, r)
      ensures forall before: Db :: Repaired(before, old(store.server.db), store.instanceId, localRooms) ==>
                Repaired(before, store.server.db, store.instanceId, localRooms)
      ensures store.server.db.capacities == old(store.server.db.capacities)
    {
      var id := store.instanceId;
      ghost var start := store.server.db;
      var todo := rooms;
      while todo != {}
        invariant todo <= rooms
        invariant forall r | r in localRooms.Keys + (rooms - todo) :: Exact(store.server.db, id, localRooms, r)
        invariant forall before: Db :: Repaired(before, start, id, localRooms) ==>
                    Repaired(before, store.server.db, id, localRooms)
        invariant store.server.db.capacities == start.capacities
      {
        var room :| room in todo;
        ghost var done := localRooms.Keys + (rooms - todo);
        todo := todo - {room};
        ghost var db0 := store.server.db;
        store.SyncRoom(EmptySyncRequest(id, room));
        forall before: Db | Repaired(before, start, id, localRooms)
          ensures Repaired(before, store.server.db, id, localRooms)
        {
          SyncedRepairs(before, db0, store.server.db, EmptySyncRequest(id, room), localRooms, done);
        }
        SyncedExact(db0, store.server.db, EmptySyncRequest(id, room), localRooms, done);
        assert localRooms.Keys + (rooms - todo) == done + {room};
      }
      assert rooms - todo == rooms;
    }

    method PublishPending(pending: seq<CoordinatorMessage>)
      modifies store.server`published
      ensures Replays(store.instanceId, pending, old(store.server.published), store.server.published)
    {
      for k := 0 to |pending|
        invariant Replays(store.instanceId, pending[..k], old(store.server.published), store.server.published)
      {
        store.Publish(pending[k]);
      }
      assert pending[..|pending|] == pending;
    }
  }

  /** The log, with the messages behind it in order, each once and under the instance's id. */
  ghost predicate Replays(id: InstanceId, messages: seq<CoordinatorMessage>, before: seq<Envelope>, after: seq<Envelope>) {
    && before <= after && |after| == |before| + |messages|
    && forall k | 0 <= k < |messages| :: after[|before| + k] == Envelope(id, messages[k])
  }

  /** The rooms done have the capacity key they had, or else the local one; the others are as they were. */
  ghost predicate CapacitiesRestored(before: Db, db: Db, rooms: Rooms, done: set<RoomId>)
    requires done <= rooms.Keys
  {
    forall r :: db.Capacity(r) ==
      if before.Capacity(r).Some? || r !in done then before.Capacity(r) else rooms[r].capacity
  }

  lemma SyncedCapacity(before: Db, db0: Db, db1: Db, id: InstanceId, room: RoomId, rooms: Rooms, done: set<RoomId>)
    requires Occupied(rooms) && room in rooms && done <= rooms.Keys && room !in done
    requires Synced(db0, SyncRequestFor(id, room, rooms[room]), db1) && CapacitiesRestored(before, db0, rooms, done)
    ensures CapacitiesRestored(before, db1, rooms, done + {room})
  {
    assert |rooms[room].peers| > 0;
    forall r ensures db1.Capacity(r) ==
      if before.Capacity(r).Some? || r !in done + {room} then before.Capacity(r) else rooms[r].capacity
    {
      assert db0.Capacity(r) == if before.Capacity(r).Some? || r !in done then before.Capacity(r) else rooms[r].capacity;
    }
  }

  /** Only entries of `id` in the synced rooms, or entries it holds there, may differ. */
  ghost predicate Repaired(before: Db, db: Db, id: InstanceId, rooms: Rooms) {
    forall r, p :: !before.Owns(id, r, p) && !(r in rooms && p in rooms[r].peers) ==> db.Entry(r, p) == before.Entry(r, p)
  }

  lemma SyncedExact(db0: Db, db1: Db, request: SyncRequest, rooms: Rooms, done: set<RoomId>)
    requires Synced(db0, request, db1)
    requires request.room !in done
    requires if request.room in rooms then request.peers == rooms[request.room].peers else request.peers == map[]
    requires forall r | r in done :: Exact(db0, request.instance, rooms, r)
    ensures forall r | r in done + {request.room} :: Exact(db1, request.instance, rooms, r)
  {
    forall r | r in done + {request.room} ensures Exact(db1, request.instance, rooms, r) {
      forall p ensures db1.Owns(request.instance, r, p) <==> r in rooms && p in rooms[r].peers {
        assert r != request.room ==> db0.Owns(request.instance, r, p) == db1.Owns(request.instance, r, p);
      }
    }
  }

  lemma SyncedRepairs(before: Db, db0: Db, db1: Db, request: SyncRequest, rooms: Rooms, done: set<RoomId>)
    requires Synced(db0, request, db1)
    requires request.room !in done
    requires if request.room in rooms then request.peers == rooms[request.room].peers else request.peers == map[]
    requires forall r | r in done :: Exact(db0, request.instance, rooms, r)
    requires Repaired(before, db0, request.instance, rooms)
    ensures forall r | r in done + {request.room} :: Exact(db1, request.instance, rooms, r)
    ensures Repaired(before, db1, request.instance, rooms)
  {
    SyncedExact(db0, db1, request, rooms, done);
    forall r, p | !before.Owns(request.instance, r, p) && !(r in rooms && p in rooms[r].peers)
      ensures db1.Entry(r, p) == before.Entry(r, p) {
      assert db0.Owns(request.instance, r, p) == before.Owns(request.instance, r, p);
    }
  }
}
