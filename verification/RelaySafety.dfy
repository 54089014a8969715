/** What every step of every instance keeps, and what follows for all runs. */
module RelaySafety {
  import opened RelayTypes
  import opened RedisStore
  import opened LocalCoordinator
  import opened RelayCoordinator
  import opened RelaySystem

  // ---------------------------------------------------------------- invariant of one instance

  /** Held peers, and peers whose join reply is on its way, are in Redis under this instance's id. */
  ghost predicate Mirror(db: Db, id: InstanceId, n: Node) {
    && (forall r, p :: n.inst.Holds(r, p) ==> db.Entry(r, p) == Some(StoredPeer(id, n.inst.Protocol(r, p))))
    && (forall r, p :: (r, p) in n.joining ==>
          db.Entry(r, p) == Some(StoredPeer(id, n.joining[(r, p)].protocol)) && !n.inst.Holds(r, p))
    && (forall r, p :: (r, p) in n.leaving ==>
          db.Owns(id, r, p) && !n.inst.Holds(r, p) && (r, p) !in n.joining)
  }

  /**
   Repairs owed are for rooms the instance is not in, and none are owed while it accepts joins. While it does not, what
   is still on its way to Redis or back is alone in its room, which no repair is owed for.
   */
  ghost predicate Debts(n: Node) {
    && n.inst.pendingEmpty !! n.inst.rooms.Keys
    && (n.IsReady() ==> n.inst.pendingEmpty == {})
    && (!n.IsReady() ==> Isolated(n) && NotOwed(n))
  }

  ghost predicate NotOwed(n: Node) {
    && (forall r, p :: (r, p) in n.joining ==> r !in n.inst.pendingEmpty)
    && (forall r, p :: (r, p) in n.leaving ==> r !in n.inst.pendingEmpty)
  }

  /** A recovery is at a room the instance holds or owes, and from the snapshot on it only deletes. */
  ghost predicate Located(n: Node) {
    n.recovery.Recovering? ==>
      && !n.inst.readyForJoins
      && (forall r | n.recovery.sync.In(r) :: r in n.inst.rooms || r in n.inst.pendingEmpty)
      && match n.recovery.stage
         case LocalLoop(_) => true
         case EmptyLoop(empties, done) =>
           && empties == n.inst.pendingEmpty
           && done <= empties
           && (forall r | n.recovery.sync.In(r) :: r in empties)
           && WritesNothing(n.recovery.sync)
         case PublishLoop(empties, total, sent) =>
           empties == n.inst.pendingEmpty && n.recovery.sync.NoSync? && sent <= total <= |n.inst.pendingPeerLeft|
  }

  predicate WritesNothing(sync: SyncPhase) {
    match sync
    case NoSync => true
    case Called(request) => request.peers == map[] && request.capacity == None
    case HashRead(_, _) => false
    case Writing(_, pipeline) => pipeline.sets == map[] && pipeline.capacity == None
  }

  /** What a sync has still to write is its own, and what it has still to delete it no longer holds. */
  ghost predicate SyncSound(db: Db, id: InstanceId, n: Node) {
    n.recovery.Recovering? ==>
      match n.recovery.sync
      case NoSync => true
      case Called(request) => RequestSound(db, id, n, request)
      case HashRead(request, stale) =>
        && RequestSound(db, id, n, request)
        && (forall p | p in stale :: db.Owns(id, request.room, p) && p !in request.peers)
      case Writing(room, pipeline) =>
        && pipeline.dels !! pipeline.sets.Keys
        && (forall p | p in pipeline.dels :: db.Owns(id, room, p) && !n.inst.Holds(room, p))
        && (forall p | p in pipeline.sets :: db.Entry(room, p) == Some(StoredPeer(id, pipeline.sets[p])))
  }

  ghost predicate RequestSound(db: Db, id: InstanceId, n: Node, request: SyncRequest) {
    && request.instance == id
    && (forall p | p in request.peers :: db.Entry(request.room, p) == Some(StoredPeer(id, request.peers[p])))
    && (forall p :: n.inst.Holds(request.room, p) ==> p in request.peers)
  }

  /** Rooms a recovery has finished or is at. */
  ghost function Visited(n: Node): set<RoomId>
    requires n.recovery.Recovering?
  {
    match n.recovery.stage
    case LocalLoop(done) => done
    case EmptyLoop(_, done) => n.recovery.startRooms + done
    case PublishLoop(empties, _, _) => n.recovery.startRooms + empties
  }

  /** As long as nobody leaves during a recovery: finished rooms are exact, and the current one is about to be. */
  ghost predicate Progress(db: Db, id: InstanceId, n: Node) {
    n.recovery.Recovering? && n.recovery.quiet ==>
      && n.recovery.startRooms <= n.inst.rooms.Keys
      && n.inst.pendingEmpty == n.recovery.startEmpties
      && (n.recovery.stage.LocalLoop? ==> n.recovery.stage.done <= n.inst.rooms.Keys)
      && (forall r | r in Visited(n) && !n.recovery.sync.In(r) :: Exact(db, id, n.inst.rooms, r))
      && match n.recovery.sync
         case NoSync => true
         case Called(request) => forall p :: p in request.peers <==> n.inst.Holds(request.room, p)
         case HashRead(request, stale) =>
           && (forall p :: p in request.peers <==> n.inst.Holds(request.room, p))
           && (forall p :: db.Owns(id, request.room, p) <==> p in request.peers || p in stale)
         case Writing(room, pipeline) =>
           forall p :: db.Owns(id, room, p) <==> n.inst.Holds(room, p) || p in pipeline.dels
  }

  /** Every `peer-left` ever queued is still queued, in its order, or was replayed at a position of its own. */
  ghost predicate Conserved(published: seq<Envelope>, id: InstanceId, n: Node) {
    && n.dropped <= |n.queued|
    && n.inst.pendingPeerLeft == n.queued[n.dropped..]
    && (forall k | 0 <= k < |n.replays| ::
          && n.replays[k].index < |n.queued|
          && n.replays[k].position < |published|
          && published[n.replays[k].position] == Envelope(id, n.queued[n.replays[k].index]))
    && (forall j, k | 0 <= j < k < |n.replays| :: n.replays[j].position < n.replays[k].position)
    && (forall x | 0 <= x < n.dropped :: Replayed(n, x))
    && (n.recovery.Recovering? && n.recovery.stage.PublishLoop? ==>
          && n.recovery.stage.sent <= n.recovery.stage.total
          && n.dropped + n.recovery.stage.total <= |n.queued|
          && (forall x | n.dropped <= x < n.dropped + n.recovery.stage.sent :: Replayed(n, x)))
  }

  ghost predicate Replayed(n: Node, index: nat) {
    exists k :: 0 <= k < |n.replays| && n.replays[k].index == index
  }

  ghost predicate NodeInv(db: Db, id: InstanceId, n: Node) {
    Mirror(db, id, n) && Debts(n) && Located(n) && SyncSound(db, id, n) && Progress(db, id, n)
  }

  ghost predicate Inv(s: System) {
    forall id :: NodeInv(s.db, id, s.NodeOf(id))
  }

  // ---------------------------------------------------------------- what a step does to the others

  /** Entries owned by somebody other than `id`, before or after, are the same before and after. */
  ghost predicate OthersKept(id: InstanceId, before: Db, after: Db) {
    forall other, r, p :: other != id && (before.Owns(other, r, p) || after.Owns(other, r, p)) ==>
      after.Entry(r, p) == before.Entry(r, p)
  }

  lemma StepKeepsOthers(s: System, e: Event)
    requires Enabled(s, e) && NodeInv(s.db, e.id, s.NodeOf(e.id))
    ensures OthersKept(e.id, s.db, Next(s, e).db)
  {
    match e.action
    case JoinCalled(room, peer, wish) => JoinScriptEntries(s.db, room, peer, StoredPeer(e.id, wish.protocol), wish.maxPeers);
    case LeaveExecuted(room, peer) => LeaveScriptEntries(s.db, room, peer);
    case _ =>
  }

  lemma KeptNodeInv(id: InstanceId, other: InstanceId, before: Db, after: Db, n: Node)
    requires OthersKept(id, before, after) && other != id && NodeInv(before, other, n)
    ensures NodeInv(after, other, n)
  {
    forall r, p ensures after.Owns(other, r, p) == before.Owns(other, r, p) {
    }
    forall r, p | before.Owns(other, r, p) ensures after.Entry(r, p) == before.Entry(r, p) {
    }
    assert Mirror(after, other, n) by {
      forall r, p | n.inst.Holds(r, p) ensures after.Entry(r, p) == Some(StoredPeer(other, n.inst.Protocol(r, p))) {
        assert before.Owns(other, r, p);
      }
      forall r, p | (r, p) in n.joining ensures after.Entry(r, p) == Some(StoredPeer(other, n.joining[(r, p)].protocol)) {
        assert before.Owns(other, r, p);
      }
    }
    assert SyncSound(after, other, n);
    assert Progress(after, other, n);
  }

  lemma {:induction false} StepInv(s: System, e: Event)
    requires Inv(s) && Enabled(s, e) && Tame(s, e)
    ensures Inv(Next(s, e))
  {
    hide Mirror, Debts, Located, SyncSound, Progress, Tame, Enabled, Step;
    var s' := Next(s, e);
    assert NodeInv(s.db, e.id, s.NodeOf(e.id));
    StepKeepsOthers(s, e);
    OwnStepInv(s, e);
    forall id ensures NodeInv(s'.db, id, s'.NodeOf(id)) {
      if id != e.id {
        assert NodeInv(s.db, id, s.NodeOf(id));
        KeptNodeInv(e.id, id, s.db, s'.db, s.NodeOf(id));
      }
    }
  }

  // ---------------------------------------------------------------- what a step does to its own instance

  /** A pipeline command touches the room being synced only. */
  lemma FinishedRoomsStay(id: InstanceId, before: Db, after: Db, n: Node, room: RoomId)
    requires n.recovery.Recovering? && n.recovery.sync.Writing? && n.recovery.sync.room == room
    requires n.recovery.quiet && Progress(before, id, n)
    requires forall r, p :: r != room ==> after.Entry(r, p) == before.Entry(r, p)
    ensures forall r | r in Visited(n) && r != room :: Exact(after, id, n.inst.rooms, r)
  {
    forall r | r in Visited(n) && r != room ensures Exact(after, id, n.inst.rooms, r) {
      assert Exact(before, id, n.inst.rooms, r);
      forall p ensures after.Owns(id, r, p) == before.Owns(id, r, p) {
      }
    }
  }

  lemma OwnStepInv(s: System, e: Event)
    requires NodeInv(s.db, e.id, s.NodeOf(e.id)) && Enabled(s, e) && Tame(s, e)
    ensures NodeInv(Step(s, e).db, e.id, Step(s, e).node)
  {
    hide NodeInv, Step, Tame, Enabled;
    match e.action
    case StoreLost => ReadinessInv(s, e);
    case StoreReady => ReadinessInv(s, e);
    case JoinCalled(_, _, _) => JoinCalledInv(s, e);
    case JoinReplied(_, _) => JoinRepliedInv(s, e);
    case JoinLost(_, _) => LostInv(s, e);
    case LeaveCalled(_, _) => LeaveCalledInv(s, e);
    case LeaveExecuted(_, _) => LeaveExecutedInv(s, e);
    case LeaveLost(_, _) => LostInv(s, e);
    case PublishCalled(_) => PublishInv(s, e);
    case _ => OwnRecoveryStepInv(s, e);
  }

  /** An action of a recovery. */
  predicate OfRecovery(action: Action) {
    || action.SyncCalled? || action.HashReplied? || action.CapacityReplied? || action.DelExecuted? || action.SetExecuted?
    || action.CapacityExecuted? || action.SyncReturned? || action.LocalLoopEnded? || action.EmptyLoopEnded?
    || action.PeerLeftReplayed? || action.RecoveryEnded? || action.RecoveryAborted?
  }

  lemma OwnRecoveryStepInv(s: System, e: Event)
    requires NodeInv(s.db, e.id, s.NodeOf(e.id)) && Enabled(s, e) && OfRecovery(e.action)
    ensures NodeInv(Step(s, e).db, e.id, Step(s, e).node)
  {
    hide NodeInv, Step, Enabled;
    match e.action
    case SyncCalled(_) => SyncCalledInv(s, e);
    case HashReplied => HashRepliedInv(s, e);
    case CapacityReplied => CapacityRepliedInv(s, e);
    case DelExecuted(_) => PipelineInv(s, e);
    case SetExecuted(_) => PipelineInv(s, e);
    case CapacityExecuted => PipelineInv(s, e);
    case SyncReturned => SyncReturnedInv(s, e);
    case LocalLoopEnded => LoopEndedInv(s, e);
    case EmptyLoopEnded => LoopEndedInv(s, e);
    case PeerLeftReplayed => PublishInv(s, e);
    case RecoveryEnded => RecoveryOverInv(s, e);
    case RecoveryAborted => RecoveryOverInv(s, e);
  }

  lemma ReadinessInv(s: System, e: Event)
    requires e.action.StoreLost? || e.action.StoreReady?
    requires NodeInv(s.db, e.id, s.NodeOf(e.id)) && Enabled(s, e) && Tame(s, e)
    ensures NodeInv(Step(s, e).db, e.id, Step(s, e).node)
  {
  }

  lemma JoinCalledInv(s: System, e: Event)
    requires e.action.JoinCalled?
    requires NodeInv(s.db, e.id, s.NodeOf(e.id)) && Enabled(s, e)
    ensures NodeInv(Step(s, e).db, e.id, Step(s, e).node)
  {
    var JoinCalled(room, peer, wish) := e.action;
    JoinScriptEntries(s.db, room, peer, StoredPeer(e.id, wish.protocol), wish.maxPeers);
  }

  lemma JoinRepliedDebts(s: System, e: Event)
    requires e.action.JoinReplied?
    requires NodeInv(s.db, e.id, s.NodeOf(e.id)) && Enabled(s, e)
    ensures Debts(Step(s, e).node) && Located(Step(s, e).node)
  {
    hide SyncSound, Progress;
  }

  lemma JoinRepliedMirror(s: System, e: Event)
    requires e.action.JoinReplied?
    requires NodeInv(s.db, e.id, s.NodeOf(e.id)) && Enabled(s, e)
    ensures Mirror(s.db, e.id, Step(s, e).node)
  {
    hide Debts, Located, SyncSound, Progress;
  }

  lemma JoinRepliedSync(s: System, e: Event)
    requires e.action.JoinReplied?
    requires NodeInv(s.db, e.id, s.NodeOf(e.id)) && Enabled(s, e)
    ensures SyncSound(s.db, e.id, Step(s, e).node) && Progress(s.db, e.id, Step(s, e).node)
  {
    hide Mirror;
  }

  lemma JoinRepliedInv(s: System, e: Event)
    requires e.action.JoinReplied?
    requires NodeInv(s.db, e.id, s.NodeOf(e.id)) && Enabled(s, e)
    ensures NodeInv(Step(s, e).db, e.id, Step(s, e).node)
  {
    JoinRepliedDebts(s, e);
    JoinRepliedMirror(s, e);
    JoinRepliedSync(s, e);
    hide Mirror, Debts, Located, SyncSound, Progress;
  }

  lemma LostInv(s: System, e: Event)
    requires e.action.JoinLost? || e.action.LeaveLost?
    requires NodeInv(s.db, e.id, s.NodeOf(e.id)) && Enabled(s, e)
    ensures NodeInv(Step(s, e).db, e.id, Step(s, e).node)
  {
  }

  lemma LeaveCalledInv(s: System, e: Event)
    requires e.action.LeaveCalled?
    requires NodeInv(s.db, e.id, s.NodeOf(e.id)) && Enabled(s, e) && Tame(s, e)
    ensures NodeInv(Step(s, e).db, e.id, Step(s, e).node)
  {
    LeaveCalledDebts(s, e);
    LeaveCalledSync(s, e);
  }

  /** What a leave does to the sets of rooms held and owed. */
  lemma LeaveRooms(inst: Instance, ready: bool, room: RoomId, peer: PeerId)
    requires inst.Holds(room, peer)
    ensures var inst', stays := RecordLeave(inst, ready, room, peer), room in LocalLeave(inst.rooms, room, peer);
            && inst'.rooms.Keys == (if stays then inst.rooms.Keys else inst.rooms.Keys - {room})
            && inst'.pendingEmpty == (if ready then inst.pendingEmpty - {room}
                                      else if stays then inst.pendingEmpty else inst.pendingEmpty + {room})
            && inst'.readyForJoins == inst.readyForJoins && inst'.pendingPeerLeft == inst.pendingPeerLeft
  {
    var rooms' := LocalLeave(inst.rooms, room, peer);
    assert rooms'.Keys == inst.rooms.Keys || rooms'.Keys == inst.rooms.Keys - {room};
  }

  lemma LeaveCalledDebts(s: System, e: Event)
    requires e.action.LeaveCalled?
    requires NodeInv(s.db, e.id, s.NodeOf(e.id)) && Enabled(s, e) && Tame(s, e)
    ensures Debts(Step(s, e).node) && Located(Step(s, e).node)
  {
    hide Progress, SyncSound, Mirror, RecordLeave, LocalLeave;
    var n := s.NodeOf(e.id);
    LeaveRooms(n.inst, n.IsReady(), e.action.room, e.action.peer);
  }

  lemma LeaveCalledSync(s: System, e: Event)
    requires e.action.LeaveCalled?
    requires NodeInv(s.db, e.id, s.NodeOf(e.id)) && Enabled(s, e)
    ensures Mirror(s.db, e.id, Step(s, e).node) && SyncSound(s.db, e.id, Step(s, e).node)
    ensures Progress(s.db, e.id, Step(s, e).node)
  {
    hide RecordLeave;
    var n, n' := s.NodeOf(e.id), Step(s, e).node;
    LeaveHolds(n.inst, n.IsReady(), e.action.room, e.action.peer);
  }

  predicate HeldIn(rooms: Rooms, room: RoomId, peer: PeerId) {
    room in rooms && peer in rooms[room].peers
  }

  lemma LocalLeaveHolds(rooms: Rooms, room: RoomId, peer: PeerId, r: RoomId, p: PeerId)
    ensures var rooms' := LocalLeave(rooms, room, peer);
            && (HeldIn(rooms', r, p) <==> HeldIn(rooms, r, p) && !(r == room && p == peer))
            && (HeldIn(rooms', r, p) ==> rooms'[r].peers[p] == rooms[r].peers[p])
  {
    if room in rooms {
      assert p in rooms[room].peers - {peer} <==> p in rooms[room].peers && p != peer;
    }
  }

  /** A leave takes one peer out of the mirror, and leaves every other one as it was. */
  lemma LeaveHolds(inst: Instance, ready: bool, room: RoomId, peer: PeerId)
    ensures var inst' := RecordLeave(inst, ready, room, peer);
            && (forall r, p :: inst'.Holds(r, p) <==> inst.Holds(r, p) && !(r == room && p == peer))
            && (forall r, p :: inst'.Holds(r, p) ==> inst'.Protocol(r, p) == inst.Protocol(r, p))
  {
    var inst' := RecordLeave(inst, ready, room, peer);
    forall r, p
      ensures inst'.Holds(r, p) <==> inst.Holds(r, p) && !(r == room && p == peer)
      ensures inst'.Holds(r, p) ==> inst'.Protocol(r, p) == inst.Protocol(r, p) {
      LocalLeaveHolds(inst.rooms, room, peer, r, p);
    }
  }

  /** A leave on its way to Redis during a recovery is not for a room the recovery has anything to do with. */
  lemma LeavingElsewhere(db: Db, id: InstanceId, n: Node, room: RoomId, peer: PeerId)
    requires Debts(n) && Located(n) && Progress(db, id, n)
    requires (room, peer) in n.leaving && n.recovery.Recovering?
    ensures room !in n.inst.rooms && room !in n.inst.pendingEmpty && !n.recovery.sync.In(room)
    ensures n.recovery.quiet ==> room !in Visited(n)
  {
  }

  lemma LeaveExecutedInv(s: System, e: Event)
    requires e.action.LeaveExecuted?
    requires NodeInv(s.db, e.id, s.NodeOf(e.id)) && Enabled(s, e)
    ensures NodeInv(Step(s, e).db, e.id, Step(s, e).node)
  {
    var n, n', db' := s.NodeOf(e.id), Step(s, e).node, Step(s, e).db;
    var LeaveExecuted(room, peer) := e.action;
    LeaveScriptEntries(s.db, room, peer);
    hide LeaveScript;
    LeaveExecutedDebts(n, n');
    LeaveExecutedMirror(s.db, db', e.id, n, n', room, peer);
    hide Mirror, Debts, Located;
    if n.recovery.Recovering? {
      LeavingElsewhere(s.db, e.id, n, room, peer);
      LeaveExecutedElsewhere(s.db, db', e.id, n, n', room);
    }
  }

  lemma LeaveExecutedMirror(db: Db, db': Db, id: InstanceId, n: Node, n': Node, room: RoomId, peer: PeerId)
    requires Mirror(db, id, n) && (room, peer) in n.leaving && n' == n.(leaving := n.leaving - {(room, peer)})
    requires forall r, p :: db'.Entry(r, p) == if r == room && p == peer then None else db.Entry(r, p)
    ensures Mirror(db', id, n')
  {
  }

  lemma LeaveExecutedDebts(n: Node, n': Node)
    requires Debts(n) && Located(n) && n' == n.(leaving := n'.leaving) && n'.leaving <= n.leaving
    ensures Debts(n') && Located(n')
  {
  }

  lemma LeaveExecutedElsewhere(db: Db, db': Db, id: InstanceId, n: Node, n': Node, room: RoomId)
    requires n.recovery.Recovering? && SyncSound(db, id, n) && Progress(db, id, n)
    requires forall r, p :: r != room ==> db'.Entry(r, p) == db.Entry(r, p)
    requires n' == n.(leaving := n'.leaving) && !n.recovery.sync.In(room) && room !in n.inst.rooms
    requires n.recovery.quiet ==> room !in Visited(n)
    ensures SyncSound(db', id, n') && Progress(db', id, n')
  {
    forall r, p | r != room ensures db'.Owns(id, r, p) == db.Owns(id, r, p) {
    }
    if n.recovery.quiet {
      forall r | r in Visited(n) && !n.recovery.sync.In(r) ensures Exact(db', id, n.inst.rooms, r) {
        assert Exact(db, id, n.inst.rooms, r);
      }
    }
  }

  lemma PublishDebts(s: System, e: Event)
    requires e.action.PublishCalled? || e.action.PeerLeftReplayed?
    requires NodeInv(s.db, e.id, s.NodeOf(e.id)) && Enabled(s, e)
    ensures Debts(Step(s, e).node) && Located(Step(s, e).node)
  {
    hide Mirror, SyncSound, Progress, JoinScript, LeaveScript, RecordJoin, RecordLeave, FinishRecovery;
  }

  lemma PublishInv(s: System, e: Event)
    requires e.action.PublishCalled? || e.action.PeerLeftReplayed?
    requires NodeInv(s.db, e.id, s.NodeOf(e.id)) && Enabled(s, e)
    ensures NodeInv(Step(s, e).db, e.id, Step(s, e).node)
  {
    PublishDebts(s, e);
    hide Debts, Located, JoinScript, LeaveScript, RecordJoin, RecordLeave, FinishRecovery;
  }

  lemma SyncCalledInv(s: System, e: Event)
    requires e.action.SyncCalled?
    requires NodeInv(s.db, e.id, s.NodeOf(e.id)) && Enabled(s, e)
    ensures NodeInv(Step(s, e).db, e.id, Step(s, e).node)
  {
    hide JoinScript, LeaveScript, RecordJoin, RecordLeave, RecordPublish, FinishRecovery;
  }

  lemma HashRepliedDebts(s: System, e: Event)
    requires e.action.HashReplied?
    requires NodeInv(s.db, e.id, s.NodeOf(e.id)) && Enabled(s, e)
    ensures Debts(Step(s, e).node) && Located(Step(s, e).node)
  {
    hide Mirror, SyncSound, Progress, JoinScript, LeaveScript, RecordJoin, RecordLeave, FinishRecovery;
  }

  lemma HashRepliedSound(s: System, e: Event)
    requires e.action.HashReplied?
    requires NodeInv(s.db, e.id, s.NodeOf(e.id)) && Enabled(s, e)
    ensures Mirror(Step(s, e).db, e.id, Step(s, e).node) && SyncSound(Step(s, e).db, e.id, Step(s, e).node)
  {
    hide Debts, Located, Progress, JoinScript, LeaveScript, RecordJoin, RecordLeave, FinishRecovery;
  }

  lemma HashRepliedProgress(s: System, e: Event)
    requires e.action.HashReplied?
    requires NodeInv(s.db, e.id, s.NodeOf(e.id)) && Enabled(s, e)
    ensures Progress(Step(s, e).db, e.id, Step(s, e).node)
  {
    hide Debts, Located, Mirror, JoinScript, LeaveScript, RecordJoin, RecordLeave, FinishRecovery;
  }

  lemma HashRepliedInv(s: System, e: Event)
    requires e.action.HashReplied?
    requires NodeInv(s.db, e.id, s.NodeOf(e.id)) && Enabled(s, e)
    ensures NodeInv(Step(s, e).db, e.id, Step(s, e).node)
  {
    hide Mirror, Debts, Located, SyncSound, Progress, Step, Enabled;
    HashRepliedDebts(s, e);
    HashRepliedSound(s, e);
    HashRepliedProgress(s, e);
  }

  lemma CapacityRepliedInv(s: System, e: Event)
    requires e.action.CapacityReplied?
    requires NodeInv(s.db, e.id, s.NodeOf(e.id)) && Enabled(s, e)
    ensures NodeInv(Step(s, e).db, e.id, Step(s, e).node)
  {
    hide JoinScript, LeaveScript, RecordJoin, RecordLeave, RecordPublish, FinishRecovery;
  }

  lemma PipelineDebts(s: System, e: Event)
    requires e.action.DelExecuted? || e.action.SetExecuted? || e.action.CapacityExecuted?
    requires NodeInv(s.db, e.id, s.NodeOf(e.id)) && Enabled(s, e)
    ensures Debts(Step(s, e).node) && Located(Step(s, e).node)
  {
    hide Mirror, SyncSound, Progress;
  }

  lemma DelExecutedSound(s: System, e: Event)
    requires e.action.DelExecuted?
    requires NodeInv(s.db, e.id, s.NodeOf(e.id)) && Enabled(s, e)
    ensures Mirror(Step(s, e).db, e.id, Step(s, e).node) && SyncSound(Step(s, e).db, e.id, Step(s, e).node)
  {
    hide Progress, JoinScript, LeaveScript, RecordJoin, RecordLeave, RecordPublish, FinishRecovery;
  }

  lemma DelExecutedProgress(s: System, e: Event)
    requires e.action.DelExecuted?
    requires NodeInv(s.db, e.id, s.NodeOf(e.id)) && Enabled(s, e)
    ensures Progress(Step(s, e).db, e.id, Step(s, e).node)
  {
    hide Debts, Located, JoinScript, LeaveScript, RecordJoin, RecordLeave, RecordPublish, FinishRecovery;
    var n := s.NodeOf(e.id);
    if n.recovery.quiet {
      FinishedRoomsStay(e.id, s.db, Step(s, e).db, n, n.recovery.sync.room);
    }
  }

  lemma SetExecutedSound(s: System, e: Event)
    requires e.action.SetExecuted?
    requires NodeInv(s.db, e.id, s.NodeOf(e.id)) && Enabled(s, e)
    ensures Mirror(Step(s, e).db, e.id, Step(s, e).node) && SyncSound(Step(s, e).db, e.id, Step(s, e).node)
  {
    hide Debts, Located, Progress, JoinScript, LeaveScript, RecordJoin, RecordLeave, RecordPublish, FinishRecovery;
  }

  lemma SetExecutedProgress(s: System, e: Event)
    requires e.action.SetExecuted?
    requires NodeInv(s.db, e.id, s.NodeOf(e.id)) && Enabled(s, e)
    ensures Progress(Step(s, e).db, e.id, Step(s, e).node)
  {
    hide Debts, Located, JoinScript, LeaveScript, RecordJoin, RecordLeave, RecordPublish, FinishRecovery;
    var n := s.NodeOf(e.id);
    if n.recovery.quiet {
      FinishedRoomsStay(e.id, s.db, Step(s, e).db, n, n.recovery.sync.room);
    }
  }

  lemma CapacityExecutedSound(s: System, e: Event)
    requires e.action.CapacityExecuted?
    requires NodeInv(s.db, e.id, s.NodeOf(e.id)) && Enabled(s, e)
    ensures Mirror(Step(s, e).db, e.id, Step(s, e).node) && SyncSound(Step(s, e).db, e.id, Step(s, e).node)
  {
    hide Debts, Located, Progress, JoinScript, LeaveScript, RecordJoin, RecordLeave, RecordPublish, FinishRecovery;
  }

  lemma CapacityExecutedProgress(s: System, e: Event)
    requires e.action.CapacityExecuted?
    requires NodeInv(s.db, e.id, s.NodeOf(e.id)) && Enabled(s, e)
    ensures Progress(Step(s, e).db, e.id, Step(s, e).node)
  {
    hide Debts, Located, JoinScript, LeaveScript, RecordJoin, RecordLeave, RecordPublish, FinishRecovery;
    var n := s.NodeOf(e.id);
    if n.recovery.quiet {
      FinishedRoomsStay(e.id, s.db, Step(s, e).db, n, n.recovery.sync.room);
    }
  }

  lemma PipelineInv(s: System, e: Event)
    requires e.action.DelExecuted? || e.action.SetExecuted? || e.action.CapacityExecuted?
    requires NodeInv(s.db, e.id, s.NodeOf(e.id)) && Enabled(s, e)
    ensures NodeInv(Step(s, e).db, e.id, Step(s, e).node)
  {
    PipelineDebts(s, e);
    hide Mirror, Debts, Located, SyncSound, Progress, Step, Enabled;
    match e.action
    case DelExecuted(_) => DelExecutedSound(s, e); DelExecutedProgress(s, e);
    case SetExecuted(_) => SetExecutedSound(s, e); SetExecutedProgress(s, e);
    case CapacityExecuted => CapacityExecutedSound(s, e); CapacityExecutedProgress(s, e);
  }

  lemma SyncReturnedInv(s: System, e: Event)
    requires e.action.SyncReturned?
    requires NodeInv(s.db, e.id, s.NodeOf(e.id)) && Enabled(s, e)
    ensures NodeInv(Step(s, e).db, e.id, Step(s, e).node)
  {
    hide JoinScript, LeaveScript, RecordJoin, RecordLeave, RecordPublish, FinishRecovery;
  }

  lemma LoopEndedInv(s: System, e: Event)
    requires e.action.LocalLoopEnded? || e.action.EmptyLoopEnded?
    requires NodeInv(s.db, e.id, s.NodeOf(e.id)) && Enabled(s, e)
    ensures NodeInv(Step(s, e).db, e.id, Step(s, e).node)
  {
  }

  lemma RecoveryOverInv(s: System, e: Event)
    requires e.action.RecoveryEnded? || e.action.RecoveryAborted?
    requires NodeInv(s.db, e.id, s.NodeOf(e.id)) && Enabled(s, e)
    ensures NodeInv(Step(s, e).db, e.id, Step(s, e).node)
  {
  }

  // ---------------------------------------------------------------- all runs

  lemma {:induction false} RunInv(events: seq<Event>)
    requires TameRun(events) && Run(events).Some?
    ensures Inv(Run(events).value)
  {
    if events == [] {
      assert forall id :: NodeInv(EMPTY_DB, id, NEW_NODE);
    } else {
      var before := events[..|events| - 1];
      assert events[..|before|] == before;
      forall k | 0 <= k < |before| ensures Run(before[..k]).Some? ==> Tame(Run(before[..k]).value, before[k]) {
        assert before[..k] == events[..k];
      }
      RunInv(before);
      StepInv(Run(before).value, events[|events| - 1]);
    }
  }

  /** In every reachable state, a held peer is in Redis under its instance's id, so no two instances hold it. */
  lemma HeldPeersAreOwned(events: seq<Event>)
    requires TameRun(events) && Run(events).Some?
    ensures var s := Run(events).value;
            && (forall id, r, p :: s.NodeOf(id).inst.Holds(r, p) ==> s.db.Owns(id, r, p))
            && (forall id, id', r, p :: s.NodeOf(id).inst.Holds(r, p) && s.NodeOf(id').inst.Holds(r, p) ==> id == id')
  {
    RunInv(events);
    var s := Run(events).value;
    forall id, r, p | s.NodeOf(id).inst.Holds(r, p) ensures s.db.Owns(id, r, p) {
      assert NodeInv(s.db, id, s.NodeOf(id));
    }
  }

  /** Nothing an instance does, recovery included, adds, overwrites or removes an entry of another. */
  lemma StepsKeepOthers(events: seq<Event>, k: nat)
    requires TameRun(events) && Run(events).Some? && k < |events|
    ensures Run(events[..k]).Some? && Run(events[..k + 1]).Some?
    ensures OthersKept(events[k].id, Run(events[..k]).value.db, Run(events[..k + 1]).value.db)
  {
    RunPrefix(events, k + 1);
    RunPrefix(events, k);
    assert events[..k + 1][..k] == events[..k];
    TamePrefix(events, k);
    RunInv(events[..k]);
    var s := Run(events[..k]).value;
    assert NodeInv(s.db, events[k].id, s.NodeOf(events[k].id));
    StepKeepsOthers(s, events[k]);
  }

  lemma {:induction false} RunPrefix(events: seq<Event>, k: nat)
    requires Run(events).Some? && k <= |events|
    ensures Run(events[..k]).Some?
    decreases |events|
  {
    if k == |events| {
      assert events[..k] == events;
    } else {
      var before := events[..|events| - 1];
      RunPrefix(before, k);
      assert before[..k] == events[..k];
    }
  }

  lemma TamePrefix(events: seq<Event>, k: nat)
    requires TameRun(events) && k <= |events|
    ensures TameRun(events[..k])
  {
    forall j | 0 <= j < k ensures Run(events[..k][..j]).Some? ==> Tame(Run(events[..k][..j]).value, events[..k][j]) {
      assert events[..k][..j] == events[..j];
    }
  }

  /** The events of instance `id` that end a recovery or let a peer go. */
  predicate Disturbs(id: InstanceId, e: Event) {
    e.id == id && (e.action.LeaveCalled? || e.action.RecoveryEnded? || e.action.RecoveryAborted?)
  }

  /**
   A recovery that starts with `StoreReady` and ends without a leave of the instance's own in between: whatever
   the others did meanwhile, Redis attributes to it exactly the peers it holds, in every room it was in or owed.
   */
  lemma RecoveryIsExact(before: seq<Event>, during: seq<Event>, id: InstanceId)
    requires var events := before + [Event(id, StoreReady)] + during + [Event(id, RecoveryEnded)];
             TameRun(events) && Run(events).Some?
    requires Run(before).Some? && Run(before).value.NodeOf(id).recovery == NotRecovering
    requires forall e | e in during :: !Disturbs(id, e)
    ensures var prior, s := Run(before).value.NodeOf(id),
              Run(before + [Event(id, StoreReady)] + during + [Event(id, RecoveryEnded)]).value;
            && prior.inst.rooms.Keys <= s.NodeOf(id).inst.rooms.Keys
            && s.NodeOf(id).inst.pendingEmpty == {}
            && s.NodeOf(id).inst.readyForJoins
            && forall r | r in prior.inst.rooms.Keys + prior.inst.pendingEmpty :: Exact(s.db, id, s.NodeOf(id).inst.rooms, r)
  {
    var start := before + [Event(id, StoreReady)];
    var events := start + during + [Event(id, RecoveryEnded)];
    var last := |start + during|;
    assert events[..last] == start + during;
    RunPrefix(events, last);
    TamePrefix(events, last);
    QuietWhileUndisturbed(before, during, id);
    RunInv(start + during);
    assert Run(events) == Some(Next(Run(start + during).value, Event(id, RecoveryEnded)));
    QuietRecoveryEndsExact(Run(start + during).value, id);
  }

  lemma QuietRecoveryEndsExact(s: System, id: InstanceId)
    requires Inv(s) && Enabled(s, Event(id, RecoveryEnded))
    requires s.NodeOf(id).recovery.quiet
    ensures var r, s' := s.NodeOf(id).recovery, Next(s, Event(id, RecoveryEnded));
            && r.startRooms <= s'.NodeOf(id).inst.rooms.Keys
            && s'.NodeOf(id).inst.pendingEmpty == {}
            && s'.NodeOf(id).inst.readyForJoins
            && forall room | room in r.startRooms + r.startEmpties :: Exact(s'.db, id, s'.NodeOf(id).inst.rooms, room)
  {
    var n := s.NodeOf(id);
    assert NodeInv(s.db, id, n);
    forall room | room in n.recovery.startRooms + n.recovery.startEmpties ensures Exact(s.db, id, n.inst.rooms, room) {
      assert room in Visited(n) && !n.recovery.sync.In(room);
    }
  }

  lemma {:induction false} QuietWhileUndisturbed(before: seq<Event>, during: seq<Event>, id: InstanceId)
    requires Run(before).Some? && Run(before).value.NodeOf(id).recovery == NotRecovering
    requires Run(before + [Event(id, StoreReady)] + during).Some?
    requires forall e | e in during :: !Disturbs(id, e)
    ensures var prior, n := Run(before).value.NodeOf(id), Run(before + [Event(id, StoreReady)] + during).value.NodeOf(id);
            && n.recovery.Recovering? && n.recovery.quiet
            && n.recovery.startRooms == prior.inst.rooms.Keys
            && n.recovery.startEmpties == prior.inst.pendingEmpty
  {
    var start := before + [Event(id, StoreReady)];
    hide Enabled, Next, Step;
    if during == [] {
      assert start + during == start;
      RecoveryStarts(before, id);
    } else {
      var events := start + during;
      var shorter := during[..|during| - 1];
      assert events[..|events| - 1] == start + shorter;
      RunPrefix(events, |events| - 1);
      QuietWhileUndisturbed(before, shorter, id);
      UndisturbedStep(Run(start + shorter).value, during[|during| - 1], id);
    }
  }

  lemma RecoveryStarts(before: seq<Event>, id: InstanceId)
    requires Run(before).Some? && Run(before).value.NodeOf(id).recovery == NotRecovering
    requires Run(before + [Event(id, StoreReady)]).Some?
    ensures var prior, n := Run(before).value.NodeOf(id), Run(before + [Event(id, StoreReady)]).value.NodeOf(id);
            && n.recovery.Recovering? && n.recovery.quiet
            && n.recovery.startRooms == prior.inst.rooms.Keys
            && n.recovery.startEmpties == prior.inst.pendingEmpty
  {
    var start := before + [Event(id, StoreReady)];
    assert start[..|start| - 1] == before;
  }

  /** Same recovery, as far as its history goes. */
  predicate SameRecovery(r: Recovery, r': Recovery) {
    r.Recovering? && r'.Recovering? && r'.quiet == r.quiet && r'.startRooms == r.startRooms && r'.startEmpties == r.startEmpties
  }

  lemma UndisturbedStep(s: System, e: Event, id: InstanceId)
    requires Enabled(s, e) && !Disturbs(id, e) && s.NodeOf(id).recovery.Recovering?
    ensures SameRecovery(s.NodeOf(id).recovery, Next(s, e).NodeOf(id).recovery)
  {
    var n := s.NodeOf(e.id);
    if e.id == id && RecoveryEnabled(n, e.action) {
      UndisturbedRecoveryStep(s, n, e);
    }
  }

  lemma UndisturbedRecoveryStep(s: System, n: Node, e: Event)
    requires n.recovery.Recovering? && RecoveryEnabled(n, e.action)
    requires !e.action.RecoveryEnded? && !e.action.RecoveryAborted?
    ensures SameRecovery(n.recovery, RecoveryStep(s, n, e).node.recovery)
  {
  }

  // ---------------------------------------------------------------- no peer-left is lost

  /** Only these events change what `Conserved` speaks about in their own instance. */
  predicate TouchesQueue(action: Action) {
    action.PublishCalled? || action.EmptyLoopEnded? || action.PeerLeftReplayed? || action.RecoveryEnded?
  }

  /** What `Conserved` speaks about is the same in both. */
  predicate SameQueue(n: Node, n': Node) {
    && n'.inst.pendingPeerLeft == n.inst.pendingPeerLeft
    && n'.queued == n.queued && n'.dropped == n.dropped && n'.replays == n.replays
    && (n'.recovery.Recovering? && n'.recovery.stage.PublishLoop? ==>
          n.recovery.Recovering? && n.recovery.stage == n'.recovery.stage)
  }

  lemma QueueUntouched(s: System, e: Event)
    requires Enabled(s, e) && !TouchesQueue(e.action)
    ensures SameQueue(s.NodeOf(e.id), Step(s, e).node)
    ensures Step(s, e).published == s.published
  {
    var n := s.NodeOf(e.id);
    if n.recovery.Recovering? && RecoveryEnabled(n, e.action) {
      QueueUntouchedByRecovery(s, n, e);
    }
  }

  lemma QueueUntouchedByRecovery(s: System, n: Node, e: Event)
    requires n.recovery.Recovering? && RecoveryEnabled(n, e.action) && !TouchesQueue(e.action)
    ensures SameQueue(n, RecoveryStep(s, n, e).node)
    ensures RecoveryStep(s, n, e).published == s.published
  {
  }

  lemma ReplayConserves(s: System, e: Event)
    requires Enabled(s, e) && e.action.PeerLeftReplayed? && Conserved(s.published, e.id, s.NodeOf(e.id))
    ensures Conserved(Step(s, e).published, e.id, Step(s, e).node)
  {
    var n, n' := s.NodeOf(e.id), Step(s, e).node;
    forall x | Replayed(n, x) ensures Replayed(n', x) {
      var k :| 0 <= k < |n.replays| && n.replays[k].index == x;
      assert n'.replays[k].index == x;
    }
    assert n'.replays[|n.replays|].index == n.dropped + n.recovery.stage.sent;
  }

  lemma ReplaysStay(n: Node, n': Node)
    requires n'.replays == n.replays
    ensures forall x :: Replayed(n, x) ==> Replayed(n', x)
  {
    forall x | Replayed(n, x) ensures Replayed(n', x) {
      var k :| 0 <= k < |n.replays| && n.replays[k].index == x;
      assert n'.replays[k].index == x;
    }
  }

  lemma PublishConserves(s: System, e: Event)
    requires Enabled(s, e) && e.action.PublishCalled? && Conserved(s.published, e.id, s.NodeOf(e.id))
    ensures Conserved(Step(s, e).published, e.id, Step(s, e).node)
  {
    ReplaysStay(s.NodeOf(e.id), Step(s, e).node);
    hide Replayed;
  }

  lemma LoopEndConserves(s: System, e: Event)
    requires Enabled(s, e) && e.action.EmptyLoopEnded? && Conserved(s.published, e.id, s.NodeOf(e.id))
    ensures Conserved(Step(s, e).published, e.id, Step(s, e).node)
  {
    ReplaysStay(s.NodeOf(e.id), Step(s, e).node);
    hide Replayed;
  }

  lemma RecoveryEndConserves(s: System, e: Event)
    requires Enabled(s, e) && e.action.RecoveryEnded? && Conserved(s.published, e.id, s.NodeOf(e.id))
    ensures Conserved(Step(s, e).published, e.id, Step(s, e).node)
  {
    ReplaysStay(s.NodeOf(e.id), Step(s, e).node);
    hide Replayed;
  }

  lemma StepConserves(s: System, e: Event, id: InstanceId)
    requires Enabled(s, e) && Conserved(s.published, id, s.NodeOf(id))
    ensures Conserved(Next(s, e).published, id, Next(s, e).NodeOf(id))
  {
    if e.id != id {
      PublishedGrows(s, e);
    } else if !TouchesQueue(e.action) {
      QueueUntouched(s, e);
      SameQueueConserves(s.published, id, s.NodeOf(id), Step(s, e).node);
    } else if e.action.PeerLeftReplayed? {
      ReplayConserves(s, e);
    } else if e.action.PublishCalled? {
      PublishConserves(s, e);
    } else if e.action.EmptyLoopEnded? {
      LoopEndConserves(s, e);
    } else {
      RecoveryEndConserves(s, e);
    }
  }

  lemma SameQueueConserves(published: seq<Envelope>, id: InstanceId, n: Node, n': Node)
    requires SameQueue(n, n') && Conserved(published, id, n)
    ensures Conserved(published, id, n')
  {
    forall x ensures Replayed(n, x) == Replayed(n', x) {
    }
  }

  lemma PublishedGrows(s: System, e: Event)
    requires Enabled(s, e)
    ensures s.published <= Next(s, e).published
  {
  }

  /** At every point of every run, tame or not, each `peer-left` queued is still queued in order, or was replayed. */
  lemma {:induction false} PeerLeftConserved(events: seq<Event>, id: InstanceId)
    requires Run(events).Some?
    ensures Conserved(Run(events).value.published, id, Run(events).value.NodeOf(id))
  {
    if events != [] {
      RunPrefix(events, |events| - 1);
      PeerLeftConserved(events[..|events| - 1], id);
      StepConserves(Run(events[..|events| - 1]).value, events[|events| - 1], id);
    }
  }
}
