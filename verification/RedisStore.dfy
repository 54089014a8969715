/**
 The part of Redis one relay deployment uses: a hash of peers and a capacity key per room.
 The Lua scripts run atomically; `SyncRoom` is a read followed by a pipeline of single commands.
 */
module RedisStore {
  import opened RelayTypes

  datatype StoredPeer = StoredPeer(instanceId: InstanceId, protocol: Option<Capabilities>)

  /** Redis deletes an empty hash, so an absent room and an empty one are the same thing. */
  datatype Db = Db(hashes: map<RoomId, map<PeerId, StoredPeer>>, capacities: map<RoomId, int>)
  {
    function Peers(room: RoomId): map<PeerId, StoredPeer> {
      if room in hashes then hashes[room] else map[]
    }

    function Entry(room: RoomId, peer: PeerId): Option<StoredPeer> {
      if peer in Peers(room) then Some(Peers(room)[peer]) else None
    }

    function Capacity(room: RoomId): Option<int> {
      if room in capacities then Some(capacities[room]) else None
    }

    predicate Owns(instance: InstanceId, room: RoomId, peer: PeerId) {
      Entry(room, peer).Some? && Entry(room, peer).value.instanceId == instance
    }

    function HSet(room: RoomId, peer: PeerId, entry: StoredPeer): (db: Db)
      ensures forall r, p :: db.Entry(r, p) == if r == room && p == peer then Some(entry) else Entry(r, p)
    {
      Db(hashes[room := Peers(room)[peer := entry]], capacities)
    }

    function HDel(room: RoomId, peer: PeerId): (db: Db)
      ensures forall r, p :: db.Entry(r, p) == if r == room && p == peer then None else Entry(r, p)
    {
      Db(hashes[room := Peers(room) - {peer}], capacities)
    }

    function SetCapacity(room: RoomId, capacity: int): (db: Db)
      ensures forall r, p :: db.Entry(r, p) == Entry(r, p)
    {
      this.(capacities := capacities[room := capacity])
    }
  }

  const EMPTY_DB := Db(map[], map[])

  // ---------------------------------------------------------------- Lua scripts

  datatype RejectCode = PeerExists | RoomFull | RedisUnavailable

  /** The list of peers in an acceptance is a set here: `HGETALL` promises no order. */
  datatype JoinReply = Rejected(code: RejectCode) | Accepted(existing: set<JoinPeer>)

  function ExistingPeers(peers: map<PeerId, StoredPeer>): set<JoinPeer> {
    set p | p in peers :: JoinPeer(p, peers[p].protocol)
  }

  /** The capacity the join script compares against: the key, or the one it installs for a first joiner. */
  function JoinCapacity(db: Db, room: RoomId, maxPeers: Option<int>): Option<int> {
    if |db.Peers(room)| == 0 && db.Capacity(room) == None then maxPeers else db.Capacity(room)
  }

  function JoinScript(db: Db, room: RoomId, peer: PeerId, entry: StoredPeer, maxPeers: Option<int>): (Db, JoinReply) {
    if peer in db.Peers(room) then
      (db, Rejected(PeerExists))
    else
      var capacity := JoinCapacity(db, room, maxPeers);
      var db1 := if |db.Peers(room)| == 0 && db.Capacity(room) == None && maxPeers.Some?
                 then db.SetCapacity(room, maxPeers.value) else db;
      if capacity.Some? && |db.Peers(room)| >= capacity.value then
        (db1, Rejected(RoomFull))
      else
        (db1.HSet(room, peer, entry), Accepted(ExistingPeers(db.Peers(room))))
  }

  function LeaveScript(db: Db, room: RoomId, peer: PeerId): Db {
    var db1 := db.HDel(room, peer);
    if |db1.Peers(room)| == 0 then Db(db1.hashes - {room}, db1.capacities - {room}) else db1
  }

  lemma JoinScriptEntries(db: Db, room: RoomId, peer: PeerId, entry: StoredPeer, maxPeers: Option<int>)
    ensures var (db', reply) := JoinScript(db, room, peer, entry, maxPeers);
            && (reply.Accepted? ==> db.Entry(room, peer) == None)
            && forall r, p :: db'.Entry(r, p) ==
                 if reply.Accepted? && r == room && p == peer then Some(entry) else db.Entry(r, p)
  {
  }

  lemma LeaveScriptEntries(db: Db, room: RoomId, peer: PeerId)
    ensures forall r, p :: LeaveScript(db, room, peer).Entry(r, p) ==
              if r == room && p == peer then None else db.Entry(r, p)
  {
    var db1 := db.HDel(room, peer);
    if |db1.Peers(room)| == 0 {
      assert forall p :: db1.Entry(room, p) == None;
    }
  }

  // ---------------------------------------------------------------- syncRoom

  datatype SyncRequest = SyncRequest(
    room: RoomId, instance: InstanceId, peers: map<PeerId, Option<Capabilities>>, capacity: Option<int>)

  /** The pipeline `syncRoom` builds from what it read: deletions, then one write per local peer, then the capacity. */
  datatype Pipeline = Pipeline(dels: set<PeerId>, sets: map<PeerId, Option<Capabilities>>, capacity: Option<int>)

  /** Entries read under this instance's id that it no longer holds. */
  function Stale(request: SyncRequest, seen: map<PeerId, StoredPeer>): set<PeerId> {
    set p | p in seen && seen[p].instanceId == request.instance && p !in request.peers
  }

  predicate ReadsCapacity(request: SyncRequest) {
    |request.peers| > 0 && request.capacity.Some?
  }

  /** The effect of an uninterrupted `syncRoom`, entry by entry. */
  ghost predicate Synced(before: Db, request: SyncRequest, after: Db) {
    && (forall r, p :: after.Entry(r, p) ==
         if r == request.room && p in request.peers then Some(StoredPeer(request.instance, request.peers[p]))
         else if r == request.room && before.Owns(request.instance, r, p) then None
         else before.Entry(r, p))
    && after.capacities ==
       if ReadsCapacity(request) && before.Capacity(request.room) == None
       then before.capacities[request.room := request.capacity.value] else before.capacities
  }

  /** What the relay publishes on a room's channel; only `peer-left` is told apart from the rest. */
  datatype CoordinatorMessage = PeerLeft(room: RoomId, peer: PeerId) | OtherMessage(room: RoomId)

  datatype Envelope = Envelope(source: InstanceId, message: CoordinatorMessage)

  /** The server, shared by the stores of all instances: the keys, and everything published on its channels. */
  class RedisServer {
    var db: Db
    var published: seq<Envelope>

    constructor ()
      ensures db == EMPTY_DB && published == []
    {
      db := EMPTY_DB;
      published := [];
    }
  }

  class RelayRedisStore {
    const server: RedisServer
    const instanceId: InstanceId
    var ready: bool

    constructor (server: RedisServer, instanceId: InstanceId)
      ensures this.server == server && this.instanceId == instanceId && !ready
    {
      this.server := server;
      this.instanceId := instanceId;
      ready := false;
    }

    method JoinRoom(room: RoomId, peer: PeerId, protocol: Option<Capabilities>, maxPeers: Option<int>)
        returns (reply: JoinReply)
      modifies server`db
      ensures (server.db, reply) ==
              JoinScript(old(server.db), room, peer, StoredPeer(instanceId, protocol), maxPeers)
    {
      var result := JoinScript(server.db, room, peer, StoredPeer(instanceId, protocol), maxPeers);
      server.db := result.0;
      reply := result.1;
    }

    method Publish(message: CoordinatorMessage)
      modifies server`published
      ensures server.published == old(server.published) + [Envelope(instanceId, message)]
    {
      server.published := server.published + [Envelope(instanceId, message)];
    }

    method LeaveRoom(room: RoomId, peer: PeerId)
      modifies server`db
      ensures server.db == LeaveScript(old(server.db), room, peer)
    {
      server.db := LeaveScript(server.db, room, peer);
    }

    /** `syncRoom` when no other client interleaves; the runs in RelaySystem split it into its commands. */
    method SyncRoom(request: SyncRequest)
      requires request.instance == instanceId
      modifies server`db
      ensures Synced(old(server.db), request, server.db)
    {
      var existing := server.db.Peers(request.room);
      var unread := existing.Keys;
      var dels: set<PeerId> := {};
      while unread != {}
        invariant unread <= existing.Keys
        invariant dels == Stale(request, existing) - unread
      {
        var p :| p in unread;
        unread := unread - {p};
        if existing[p].instanceId == request.instance && p !in request.peers {
          dels := dels + {p};
        }
      }
      var capacity := if ReadsCapacity(request) && server.db.Capacity(request.room) == None
                      then request.capacity else None;

      ghost var before := server.db;
      var todo := dels;
      while todo != {}
        invariant todo <= dels
        invariant server.db.capacities == before.capacities
        invariant forall r, p :: server.db.Entry(r, p) ==
                    if r == request.room && p in dels - todo then None else before.Entry(r, p)
      {
        var p :| p in todo;
        todo := todo - {p};
        server.db := server.db.HDel(request.room, p);
      }

      var unwritten := request.peers.Keys;
      while unwritten != {}
        invariant unwritten <= request.peers.Keys
        invariant server.db.capacities == before.capacities
        invariant forall r, p :: server.db.Entry(r, p) ==
                    if r == request.room && p in request.peers.Keys - unwritten
                    then Some(StoredPeer(request.instance, request.peers[p]))
                    else if r == request.room && p in dels then None
                    else before.Entry(r, p)
      {
        var p :| p in unwritten;
        unwritten := unwritten - {p};
        server.db := server.db.HSet(request.room, p, StoredPeer(request.instance, request.peers[p]));
      }

      if capacity.Some? {
        server.db := server.db.SetCapacity(request.room, capacity.value);
      }
      assert forall r, p :: server.db.Entry(r, p) ==
                    if r == request.room && p in request.peers
                    then Some(StoredPeer(request.instance, request.peers[p]))
                    else if r == request.room && p in dels then None
                    else before.Entry(r, p);
      forall p | before.Owns(request.instance, request.room, p) && p !in request.peers
        ensures p in dels {
        assert p in existing;
      }
    }
  }
}
