/** The single-process coordinator: one map of rooms, each with its peers and the capacity its first joiner chose. */
module LocalCoordinator {
  import opened RelayTypes
  import opened RedisStore

  datatype LocalRoom = LocalRoom(peers: map<PeerId, Option<Capabilities>>, capacity: Option<int>)

  type Rooms = map<RoomId, LocalRoom>

  function ExistingLocalPeers(peers: map<PeerId, Option<Capabilities>>): set<JoinPeer> {
    set p | p in peers :: JoinPeer(p, peers[p])
  }

  function RoomOrNew(rooms: Rooms, room: RoomId, maxPeers: Option<int>): LocalRoom {
    if room in rooms then rooms[room] else LocalRoom(map[], maxPeers)
  }

  function LocalJoin(rooms: Rooms, room: RoomId, peer: PeerId, protocol: Option<Capabilities>, maxPeers: Option<int>)
    : (Rooms, JoinReply)
  {
    var current := RoomOrNew(rooms, room, maxPeers);
    if peer in current.peers then (rooms, Rejected(PeerExists))
    else if current.capacity.Some? && |current.peers| >= current.capacity.value then (rooms, Rejected(RoomFull))
    else (rooms[room := current.(peers := current.peers[peer := protocol])], Accepted(ExistingLocalPeers(current.peers)))
  }

  function LocalLeave(rooms: Rooms, room: RoomId, peer: PeerId): Rooms {
    if room !in rooms then rooms
    else
      var peers := rooms[room].peers - {peer};
      if |peers| == 0 then rooms - {room} else rooms[room := rooms[room].(peers := peers)]
  }

  class LocalRelayRoomCoordinator {
    var rooms: Rooms

    constructor ()
      ensures rooms == map[]
    {
      rooms := map[];
    }

    method Join(room: RoomId, peer: PeerId, protocol: Option<Capabilities>, maxPeers: Option<int>)
        returns (reply: JoinReply)
      modifies this
      ensures (rooms, reply) == LocalJoin(old(rooms), room, peer, protocol, maxPeers)
    {
      var current := if room in rooms then rooms[room] else LocalRoom(map[], maxPeers);
      if peer in current.peers {
        return Rejected(PeerExists);
      }
      if current.capacity.Some? && |current.peers| >= current.capacity.value {
        return Rejected(RoomFull);
      }
      var peers := current.peers;
      rooms := rooms[room := current.(peers := current.peers[peer := protocol])];
      reply := Accepted(ExistingLocalPeers(peers));
    }

    method Leave(room: RoomId, peer: PeerId)
      modifies this
      ensures rooms == LocalLeave(old(rooms), room, peer)
    {
      if room !in rooms {
        return;
      }
      var peers := rooms[room].peers - {peer};
      if |peers| == 0 {
        rooms := rooms - {room};
        return;
      }
      rooms := rooms[room := rooms[room].(peers := peers)];
    }
  }
}

/**
 The Redis scripts behave like the single-process coordinator: on every sequence of joins and leaves both
 answer with the same code and the same set of existing peers, and both keep the same capacity.
 */
module ScriptRefinement {
  import opened RelayTypes
  import opened RedisStore
  import opened LocalCoordinator

  datatype Op =
    | Join(instance: InstanceId, room: RoomId, peer: PeerId, protocol: Option<Capabilities>, maxPeers: Option<int>)
    | Leave(room: RoomId, peer: PeerId)

  /** The message schema turns a `maxPeers` below 1 into an absent one. */
  predicate Admissible(op: Op) {
    op.Join? && op.maxPeers.Some? ==> op.maxPeers.value >= 1
  }

  function RedisStep(db: Db, op: Op): (Db, Option<JoinReply>) {
    match op
    case Join(instance, room, peer, protocol, maxPeers) =>
      var (db', reply) := JoinScript(db, room, peer, StoredPeer(instance, protocol), maxPeers); (db', Some(reply))
    case Leave(room, peer) => (LeaveScript(db, room, peer), None)
  }

  function LocalStep(rooms: Rooms, op: Op): (Rooms, Option<JoinReply>) {
    match op
    case Join(_, room, peer, protocol, maxPeers) =>
      var (rooms', reply) := LocalJoin(rooms, room, peer, protocol, maxPeers); (rooms', Some(reply))
    case Leave(room, peer) => (LocalLeave(rooms, room, peer), None)
  }

  /** State after a run, and the replies it gave. */
  function RedisRun(ops: seq<Op>): (Db, seq<Option<JoinReply>>) {
    if ops == [] then (EMPTY_DB, [])
    else
      var (db, replies) := RedisRun(ops[..|ops| - 1]);
      var (db', reply) := RedisStep(db, ops[|ops| - 1]);
      (db', replies + [reply])
  }

  function LocalRun(ops: seq<Op>): (Rooms, seq<Option<JoinReply>>) {
    if ops == [] then (map[], [])
    else
      var (rooms, replies) := LocalRun(ops[..|ops| - 1]);
      var (rooms', reply) := LocalStep(rooms, ops[|ops| - 1]);
      (rooms', replies + [reply])
  }

  ghost predicate SamePeers(stored: map<PeerId, StoredPeer>, held: map<PeerId, Option<Capabilities>>) {
    && stored.Keys == held.Keys
    && forall p | p in stored :: stored[p].protocol == held[p]
  }

  ghost predicate MatchesRoom(db: Db, rooms: Rooms, room: RoomId) {
    if room in rooms then
      && |rooms[room].peers| > 0
      && SamePeers(db.Peers(room), rooms[room].peers)
      && db.Capacity(room) == rooms[room].capacity
    else
      && db.Peers(room) == map[]
      && db.Capacity(room) == None
  }

  ghost predicate Matches(db: Db, rooms: Rooms) {
    forall room :: MatchesRoom(db, rooms, room)
  }

  lemma SamePeersAgree(stored: map<PeerId, StoredPeer>, held: map<PeerId, Option<Capabilities>>)
    requires SamePeers(stored, held)
    ensures |stored| == |held| && ExistingPeers(stored) == ExistingLocalPeers(held)
  {
    assert |stored.Keys| == |held.Keys|;
  }

  /** One operation touches the keys of its own room only. */
  lemma OtherRedisRoomsUntouched(db: Db, op: Op, room: RoomId)
    requires room != op.room
    ensures RedisStep(db, op).0.Peers(room) == db.Peers(room)
    ensures RedisStep(db, op).0.Capacity(room) == db.Capacity(room)
  {
    match op
    case Join(instance, r, peer, protocol, maxPeers) =>
      JoinTouchesOneRoom(db, r, peer, StoredPeer(instance, protocol), maxPeers, room);
    case Leave(r, peer) => LeaveTouchesOneRoom(db, r, peer, room);
  }

  lemma JoinTouchesOneRoom(db: Db, r: RoomId, peer: PeerId, entry: StoredPeer, maxPeers: Option<int>, room: RoomId)
    requires room != r
    ensures var db' := JoinScript(db, r, peer, entry, maxPeers).0;
            db'.Peers(room) == db.Peers(room) && db'.Capacity(room) == db.Capacity(room)
  {
  }

  lemma LeaveTouchesOneRoom(db: Db, r: RoomId, peer: PeerId, room: RoomId)
    requires room != r
    ensures LeaveScript(db, r, peer).Peers(room) == db.Peers(room)
    ensures LeaveScript(db, r, peer).Capacity(room) == db.Capacity(room)
  {
    HDelTouchesOneRoom(db, r, peer, room);
    RoomDeletionTouchesOneRoom(db.HDel(r, peer), r, room);
  }

  lemma HDelTouchesOneRoom(db: Db, r: RoomId, peer: PeerId, room: RoomId)
    requires room != r
    ensures db.HDel(r, peer).Peers(room) == db.Peers(room)
    ensures db.HDel(r, peer).Capacity(room) == db.Capacity(room)
  {
  }

  lemma RoomDeletionTouchesOneRoom(db: Db, r: RoomId, room: RoomId)
    requires room != r
    ensures Db(db.hashes - {r}, db.capacities - {r}).Peers(room) == db.Peers(room)
    ensures Db(db.hashes - {r}, db.capacities - {r}).Capacity(room) == db.Capacity(room)
  {
  }

  lemma OtherLocalRoomsUntouched(rooms: Rooms, op: Op, room: RoomId)
    requires room != op.room
    ensures room in LocalStep(rooms, op).0 <==> room in rooms
    ensures room in rooms ==> LocalStep(rooms, op).0[room] == rooms[room]
  {
  }

  lemma JoinMatches(db: Db, rooms: Rooms, op: Op)
    requires op.Join? && MatchesRoom(db, rooms, op.room) && Admissible(op)
    ensures MatchesRoom(RedisStep(db, op).0, LocalStep(rooms, op).0, op.room)
    ensures RedisStep(db, op).1 == LocalStep(rooms, op).1
  {
    SamePeersAgree(db.Peers(op.room), RoomOrNew(rooms, op.room, op.maxPeers).peers);
    assert op.peer in db.Peers(op.room)[op.peer := StoredPeer(op.instance, op.protocol)];
  }

  lemma LeaveMatches(db: Db, rooms: Rooms, op: Op)
    requires op.Leave? && MatchesRoom(db, rooms, op.room)
    ensures MatchesRoom(RedisStep(db, op).0, LocalStep(rooms, op).0, op.room)
  {
    var rest := db.Peers(op.room) - {op.peer};
    assert db.HDel(op.room, op.peer).Peers(op.room) == rest;
    if op.room in rooms {
      SamePeersAgree(rest, rooms[op.room].peers - {op.peer});
    }
  }

  lemma StepMatches(db: Db, rooms: Rooms, op: Op)
    requires Matches(db, rooms) && Admissible(op)
    ensures Matches(RedisStep(db, op).0, LocalStep(rooms, op).0)
    ensures RedisStep(db, op).1 == LocalStep(rooms, op).1
  {
    assert MatchesRoom(db, rooms, op.room);
    if op.Join? { JoinMatches(db, rooms, op); } else { LeaveMatches(db, rooms, op); }
    forall room | room != op.room ensures MatchesRoom(RedisStep(db, op).0, LocalStep(rooms, op).0, room) {
      assert MatchesRoom(db, rooms, room);
      OtherRedisRoomsUntouched(db, op, room);
      OtherLocalRoomsUntouched(rooms, op, room);
    }
  }

  lemma {:induction false} RunMatches(ops: seq<Op>)
    requires forall op | op in ops :: Admissible(op)
    ensures Matches(RedisRun(ops).0, LocalRun(ops).0)
    ensures RedisRun(ops).1 == LocalRun(ops).1
  {
    if ops != [] {
      RunMatches(ops[..|ops| - 1]);
      StepMatches(RedisRun(ops[..|ops| - 1]).0, LocalRun(ops[..|ops| - 1]).0, ops[|ops| - 1]);
    }
  }

  /** What the history says the capacity of a room is: the wish of whoever joined it when it was last empty. */
  ghost function CapacityByHistory(ops: seq<Op>, room: RoomId): Option<int> {
    if ops == [] then None
    else
      var before, last := ops[..|ops| - 1], ops[|ops| - 1];
      if room !in LocalRun(ops).0 then None
      else if room !in LocalRun(before).0 && last.Join? then last.maxPeers
      else CapacityByHistory(before, room)
  }

  lemma {:induction false} RunCapacity(ops: seq<Op>, room: RoomId)
    requires forall op | op in ops :: Admissible(op)
    ensures var db := RedisRun(ops).0;
            && db.Capacity(room) == CapacityByHistory(ops, room)
            && (db.Capacity(room).Some? ==> |db.Peers(room)| <= db.Capacity(room).value)
  {
    RunMatches(ops);
    assert MatchesRoom(RedisRun(ops).0, LocalRun(ops).0, room);
    if ops != [] {
      var before, last := ops[..|ops| - 1], ops[|ops| - 1];
      RunCapacity(before, room);
      RunMatches(before);
      assert MatchesRoom(RedisRun(before).0, LocalRun(before).0, room);
      RoomAfterStep(RedisRun(before).0, LocalRun(before).0, last, room);
    }
  }

  lemma RoomAfterStep(db: Db, rooms: Rooms, op: Op, room: RoomId)
    requires Matches(db, rooms) && Admissible(op)
    requires db.Capacity(room).Some? ==> |db.Peers(room)| <= db.Capacity(room).value
    ensures var db' := RedisStep(db, op).0;
            && (db'.Capacity(room).Some? ==> |db'.Peers(room)| <= db'.Capacity(room).value)
            && (room in LocalStep(rooms, op).0 ==>
                 db'.Capacity(room) == if room in rooms then db.Capacity(room) else if op.Join? then op.maxPeers else None)
  {
    assert MatchesRoom(db, rooms, room);
    if room != op.room {
      OtherRedisRoomsUntouched(db, op, room);
      OtherLocalRoomsUntouched(rooms, op, room);
    } else if op.Leave? {
      SmallerMap(db.Peers(room), op.peer);
      assert db.HDel(room, op.peer).Peers(room) == db.Peers(room) - {op.peer};
    } else {
      RoomAfterJoin(db, rooms, op);
    }
  }

  lemma RoomAfterJoin(db: Db, rooms: Rooms, op: Op)
    requires op.Join? && MatchesRoom(db, rooms, op.room) && Admissible(op)
    requires db.Capacity(op.room).Some? ==> |db.Peers(op.room)| <= db.Capacity(op.room).value
    ensures var db' := RedisStep(db, op).0;
            && (db'.Capacity(op.room).Some? ==> |db'.Peers(op.room)| <= db'.Capacity(op.room).value)
            && (op.room in LocalStep(rooms, op).0 ==>
                 db'.Capacity(op.room) == if op.room in rooms then db.Capacity(op.room) else op.maxPeers)
  {
    SamePeersAgree(db.Peers(op.room), RoomOrNew(rooms, op.room, op.maxPeers).peers);
  }

  lemma SmallerMap<K, V>(m: map<K, V>, k: K)
    ensures |m - {k}| <= |m|
  {
    assert (m - {k}).Keys == m.Keys - {k};
  }

  /**
   Without the schema's lower bound the two differ: a first join with `maxPeers` 0 is refused by both, but the
   script leaves the capacity key behind, and the room then refuses everybody.
   */
  lemma ZeroCapacityBricksRedisRoom(instance: InstanceId, room: RoomId, peer: PeerId)
    ensures var ops := [Join(instance, room, peer, None, Some(0)), Join(instance, room, peer, None, None)];
            && RedisRun(ops).1 == [Some(Rejected(RoomFull)), Some(Rejected(RoomFull))]
            && LocalRun(ops).1 == [Some(Rejected(RoomFull)), Some(Accepted({}))]
  {
    hide RedisStep, LocalStep, RedisRun, LocalRun;
    var op1, op2 := Join(instance, room, peer, None, Some(0)), Join(instance, room, peer, None, None);
    var full := Some(Rejected(RoomFull));
    ZeroCapacitySteps(instance, room, peer);
    RunNothing();
    RunSnoc([], op1);
    RunSnoc([op1], op2);
    assert [] + [op1] == [op1] && [op1] + [op2] == [op1, op2];
    assert [] + [full] == [full] && [full] + [full] == [full, full];
    assert [full] + [Some(Accepted({}))] == [full, Some(Accepted({}))];
  }

  lemma RunNothing()
    ensures RedisRun([]) == (EMPTY_DB, []) && LocalRun([]) == (map[], [])
  {
  }

  lemma ZeroCapacitySteps(instance: InstanceId, room: RoomId, peer: PeerId)
    ensures var op1, op2 := Join(instance, room, peer, None, Some(0)), Join(instance, room, peer, None, None);
            var full := EMPTY_DB.SetCapacity(room, 0);
            && RedisStep(EMPTY_DB, op1) == (full, Some(Rejected(RoomFull)))
            && RedisStep(full, op2) == (full, Some(Rejected(RoomFull)))
            && LocalStep(map[], op1) == (map[], Some(Rejected(RoomFull)))
            && LocalStep(map[], op2).1 == Some(Accepted({}))
  {
    assert ExistingLocalPeers(map[]) == {};
  }

  lemma RunSnoc(ops: seq<Op>, op: Op)
    ensures var (db, replies) := RedisRun(ops);
            RedisRun(ops + [op]) == (RedisStep(db, op).0, replies + [RedisStep(db, op).1])
    ensures var (rooms, replies) := LocalRun(ops);
            LocalRun(ops + [op]) == (LocalStep(rooms, op).0, replies + [LocalStep(rooms, op).1])
  {
    assert (ops + [op])[..|ops + [op]| - 1] == ops;
  }

  // ---------------------------------------------------------------- what the history says

  /** What a peer announced in its last accepted join, unless it left since. */
  ghost function MemberOf(ops: seq<Op>, room: RoomId, peer: PeerId): Option<Option<Capabilities>> {
    if ops == [] then None
    else
      var before, last := ops[..|ops| - 1], ops[|ops| - 1];
      if last.room != room || last.peer != peer then MemberOf(before, room, peer)
      else if last.Leave? then None
      else if LocalStep(LocalRun(before).0, last).1.value.Accepted? then Some(last.protocol)
      else MemberOf(before, room, peer)
  }

  function Within(rooms: Rooms, room: RoomId, peer: PeerId): Option<Option<Capabilities>> {
    if room in rooms && peer in rooms[room].peers then Some(rooms[room].peers[peer]) else None
  }

  ghost predicate SomebodyWithin(rooms: Rooms, room: RoomId) {
    room in rooms ==> exists p :: Within(rooms, room, p).Some?
  }

  lemma StepWithin(rooms: Rooms, op: Op, room: RoomId, peer: PeerId)
    ensures var (rooms', reply) := LocalStep(rooms, op);
            Within(rooms', room, peer) ==
            if op.room != room || op.peer != peer then Within(rooms, room, peer)
            else if op.Leave? then None
            else if reply.value.Accepted? then Some(op.protocol)
            else Within(rooms, room, peer)
  {
  }

  lemma StepSomebody(rooms: Rooms, op: Op, room: RoomId)
    requires SomebodyWithin(rooms, room)
    ensures SomebodyWithin(LocalStep(rooms, op).0, room)
  {
    var rooms' := LocalStep(rooms, op).0;
    if room != op.room {
      OtherLocalRoomsUntouched(rooms, op, room);
      forall p ensures Within(rooms', room, p) == Within(rooms, room, p) {
      }
    } else if room in rooms' {
      if op.Join? && op.peer in rooms'[room].peers {
        assert Within(rooms', room, op.peer).Some?;
      } else if op.Leave? {
        var p :| p in rooms'[room].peers;
        assert Within(rooms', room, p).Some?;
      }
    }
  }

  /** After every run, the members of a room are those the history tells of, and a room without one is gone. */
  lemma {:induction false} MembersExactly(ops: seq<Op>, room: RoomId, peer: PeerId)
    ensures Within(LocalRun(ops).0, room, peer) == MemberOf(ops, room, peer)
    ensures SomebodyWithin(LocalRun(ops).0, room)
  {
    if ops != [] {
      MembersExactly(ops[..|ops| - 1], room, peer);
      StepWithin(LocalRun(ops[..|ops| - 1]).0, ops[|ops| - 1], room, peer);
      StepSomebody(LocalRun(ops[..|ops| - 1]).0, ops[|ops| - 1], room);
    }
  }

  /**
   The answer to a join after any run, by the history alone: a member is refused as such, a newcomer if the members are
   as many as the first of them allowed, and everybody else is told who the members are and what they announced.
   */
  lemma JoinAnsweredExactly(ops: seq<Op>, op: Op, members: set<PeerId>)
    requires op.Join? && forall p :: p in members <==> MemberOf(ops, op.room, p).Some?
    ensures var answer := LocalStep(LocalRun(ops).0, op).1;
            var limit := if members == {} then op.maxPeers else CapacityByHistory(ops, op.room);
            if op.peer in members then answer == Some(Rejected(PeerExists))
            else if limit.Some? && |members| >= limit.value then answer == Some(Rejected(RoomFull))
            else
              && answer.Some? && answer.value.Accepted?
              && forall j :: j in answer.value.existing <==>
                   j.peerId in members && Some(j.protocol) == MemberOf(ops, op.room, j.peerId)
  {
    var rooms := LocalRun(ops).0;
    forall p ensures Within(rooms, op.room, p) == MemberOf(ops, op.room, p) {
      MembersExactly(ops, op.room, p);
    }
    MembersExactly(ops, op.room, op.peer);
    LocalCapacity(ops, op.room);
    var current := RoomOrNew(rooms, op.room, op.maxPeers);
    assert current.peers.Keys == members by {
      forall p ensures p in current.peers <==> p in members {
        assert Within(rooms, op.room, p) == MemberOf(ops, op.room, p);
      }
    }
    assert |current.peers| == |current.peers.Keys|;
    forall p | p in current.peers ensures Some(current.peers[p]) == MemberOf(ops, op.room, p) {
      assert Within(rooms, op.room, p) == MemberOf(ops, op.room, p);
    }
  }

  lemma {:induction false} LocalCapacity(ops: seq<Op>, room: RoomId)
    ensures var rooms := LocalRun(ops).0; room in rooms ==> rooms[room].capacity == CapacityByHistory(ops, room)
  {
    if ops != [] {
      LocalCapacity(ops[..|ops| - 1], room);
    }
  }
}
