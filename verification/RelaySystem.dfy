/**
 Any number of relay instances over one Redis. An event is one indivisible step of one instance: a script run by
 Redis, a reply processed, a synchronous stretch of a handler, or one command of a recovery. Everything the
 coordinator awaits is a point where the other instances' events, and its own, may come in between.
 */
module RelaySystem {
  import opened RelayTypes
  import opened RedisStore
  import opened LocalCoordinator
  import opened RelayCoordinator

  datatype JoinWish = JoinWish(protocol: Option<Capabilities>, maxPeers: Option<int>)

  /** Where a `syncRoom` call is: called, hash read, or executing what is left of its pipeline. */
  datatype SyncPhase =
    | NoSync
    | Called(request: SyncRequest)
    | HashRead(request: SyncRequest, stale: set<PeerId>)
    | Writing(room: RoomId, pipeline: Pipeline)
  {
    predicate In(r: RoomId) {
      match this
      case NoSync => false
      case Called(request) => request.room == r
      case HashRead(request, _) => request.room == r
      case Writing(room, _) => room == r
    }
  }

  datatype Stage =
    | LocalLoop(done: set<RoomId>)
    | EmptyLoop(empties: set<RoomId>, done: set<RoomId>)
    | PublishLoop(empties: set<RoomId>, total: nat, sent: nat)

  /**
   `quiet`, `startRooms` and `startEmpties` are history: whether no peer of the instance left since the recovery
   began, and what it had to repair then.
   */
  datatype Recovery =
    | NotRecovering
    | Recovering(stage: Stage, sync: SyncPhase, quiet: bool, startRooms: set<RoomId>, startEmpties: set<RoomId>)

  /** A `peer-left` replayed by a recovery: its index among all those queued, and its position in the channel log. */
  datatype Replay = Replay(index: nat, position: nat)

  /** `queued`, `dropped` and `replays` are history: every message queued so far, how many were taken off, and when they were replayed. */
  datatype Node = Node(
    inst: Instance,
    storeReady: bool,
    recovery: Recovery,
    joining: map<(RoomId, PeerId), JoinWish>,
    leaving: set<(RoomId, PeerId)>,
    queued: seq<CoordinatorMessage>,
    dropped: nat,
    replays: seq<Replay>)
  {
    predicate IsReady() {
      storeReady && inst.readyForJoins
    }

    predicate AfterSnapshot() {
      recovery.Recovering? && !recovery.stage.LocalLoop?
    }
  }

  const NEW_NODE := Node(NEW_INSTANCE, false, NotRecovering, map[], {}, [], 0, [])

  datatype System = System(db: Db, nodes: map<InstanceId, Node>, published: seq<Envelope>)
  {
    function NodeOf(id: InstanceId): Node {
      if id in nodes then nodes[id] else NEW_NODE
    }
  }

  const INITIAL := System(EMPTY_DB, map[], [])

  datatype Action =
    | StoreLost
    | StoreReady
    | JoinCalled(room: RoomId, peer: PeerId, wish: JoinWish)
    | JoinReplied(room: RoomId, peer: PeerId)
    | JoinLost(room: RoomId, peer: PeerId)
    | LeaveCalled(room: RoomId, peer: PeerId)
    | LeaveExecuted(room: RoomId, peer: PeerId)
    | LeaveLost(room: RoomId, peer: PeerId)
    | PublishCalled(message: CoordinatorMessage)
    | SyncCalled(room: RoomId)
    | HashReplied
    | CapacityReplied
    | DelExecuted(peer: PeerId)
    | SetExecuted(peer: PeerId)
    | CapacityExecuted
    | SyncReturned
    | LocalLoopEnded
    | EmptyLoopEnded
    | PeerLeftReplayed
    | RecoveryEnded
    | RecoveryAborted

  datatype Event = Event(id: InstanceId, action: Action)

  /** When an event may happen. `leave` is called for peers the instance joined, and for those only. */
  predicate Enabled(s: System, e: Event) {
    var n := s.NodeOf(e.id);
    match e.action
    case StoreLost => n.storeReady
    case StoreReady => !n.storeReady
    case JoinCalled(_, _, _) => n.IsReady()
    case JoinReplied(room, peer) => (room, peer) in n.joining
    case JoinLost(room, peer) => (room, peer) in n.joining
    case LeaveCalled(room, peer) => n.inst.Holds(room, peer)
    case LeaveExecuted(room, peer) => (room, peer) in n.leaving
    case LeaveLost(room, peer) => (room, peer) in n.leaving
    case PublishCalled(_) => true
    case _ => n.recovery.Recovering? && RecoveryEnabled(n, e.action)
  }

  predicate RecoveryEnabled(n: Node, action: Action)
    requires n.recovery.Recovering?
  {
    var sync := n.recovery.sync;
    match action
    case SyncCalled(room) =>
      sync.NoSync? &&
      (match n.recovery.stage
       case LocalLoop(done) => room in n.inst.rooms && room !in done
       case EmptyLoop(empties, done) => room in empties && room !in done
       case PublishLoop(_, _, _) => false)
    case HashReplied => sync.Called?
    case CapacityReplied => sync.HashRead?
    case DelExecuted(peer) => sync.Writing? && peer in sync.pipeline.dels
    case SetExecuted(peer) => sync.Writing? && sync.pipeline.dels == {} && peer in sync.pipeline.sets
    case CapacityExecuted => sync.Writing? && sync.pipeline.dels == {} && sync.pipeline.sets == map[] && sync.pipeline.capacity.Some?
    case SyncReturned => sync.Writing? && sync.pipeline == Pipeline({}, map[], None)
    case LocalLoopEnded => sync.NoSync? && n.recovery.stage.LocalLoop? && n.inst.rooms.Keys <= n.recovery.stage.done
    case EmptyLoopEnded => sync.NoSync? && n.recovery.stage.EmptyLoop? && n.recovery.stage.empties <= n.recovery.stage.done
    case PeerLeftReplayed => n.recovery.stage.PublishLoop? && n.recovery.stage.sent < n.recovery.stage.total <= |n.inst.pendingPeerLeft|
    case RecoveryEnded => n.recovery.stage.PublishLoop? && n.recovery.stage.sent == n.recovery.stage.total <= |n.inst.pendingPeerLeft|
    case RecoveryAborted => true
    case _ => false
  }

  datatype Effect = Effect(db: Db, node: Node, published: seq<Envelope>)

  function Next(s: System, e: Event): System
    requires Enabled(s, e)
  {
    var effect := Step(s, e);
    System(effect.db, s.nodes[e.id := effect.node], effect.published)
  }

  function Step(s: System, e: Event): Effect
    requires Enabled(s, e)
  {
    var n := s.NodeOf(e.id);
    match e.action
    case StoreLost =>
      Effect(s.db, n.(storeReady := false, inst := n.inst.(readyForJoins := false)), s.published)
    case StoreReady =>
      if n.recovery.Recovering? then Effect(s.db, n.(storeReady := true), s.published)
      else
        var recovery := Recovering(LocalLoop({}), NoSync, true, n.inst.rooms.Keys, n.inst.pendingEmpty);
        Effect(s.db, n.(storeReady := true, recovery := recovery, inst := n.inst.(readyForJoins := false)), s.published)
    case JoinCalled(room, peer, wish) =>
      var (db, reply) := JoinScript(s.db, room, peer, StoredPeer(e.id, wish.protocol), wish.maxPeers);
      Effect(db, if reply.Accepted? then n.(joining := n.joining[(room, peer) := wish]) else n, s.published)
    case JoinReplied(room, peer) =>
      var wish := n.joining[(room, peer)];
      Effect(s.db, n.(joining := n.joining - {(room, peer)},
                      inst := RecordJoin(n.inst, room, peer, wish.protocol, wish.maxPeers)), s.published)
    case JoinLost(room, peer) =>
      Effect(s.db, n.(joining := n.joining - {(room, peer)}), s.published)
    case LeaveCalled(room, peer) =>
      var inst := RecordLeave(n.inst, n.IsReady(), room, peer);
      var recovery := if n.recovery.Recovering? then n.recovery.(quiet := false) else NotRecovering;
      Effect(s.db, n.(inst := inst, recovery := recovery,
                      leaving := if n.IsReady() then n.leaving + {(room, peer)} else n.leaving), s.published)
    case LeaveExecuted(room, peer) =>
      Effect(LeaveScript(s.db, room, peer), n.(leaving := n.leaving - {(room, peer)}), s.published)
    case LeaveLost(room, peer) =>
      Effect(s.db, n.(leaving := n.leaving - {(room, peer)}), s.published)
    case PublishCalled(message) =>
      if n.IsReady() then Effect(s.db, n, s.published + [Envelope(e.id, message)])
      else Effect(s.db, n.(inst := RecordPublish(n.inst, false, message),
                           queued := if message.PeerLeft? then n.queued + [message] else n.queued), s.published)
    case _ => RecoveryStep(s, n, e)
  }

  function RecoveryStep(s: System, n: Node, e: Event): Effect
    requires n.recovery.Recovering? && RecoveryEnabled(n, e.action)
  {
    var r := n.recovery;
    match e.action
    case SyncCalled(room) =>
      var request := if r.stage.LocalLoop? then SyncRequestFor(e.id, room, n.inst.rooms[room]) else EmptySyncRequest(e.id, room);
      Effect(s.db, n.(recovery := r.(stage := r.stage.(done := r.stage.done + {room}), sync := Called(request))), s.published)
    case HashReplied =>
      var request := r.sync.request;
      var stale := Stale(request, s.db.Peers(request.room));
      var sync := if ReadsCapacity(request) then HashRead(request, stale)
                  else Writing(request.room, Pipeline(stale, request.peers, None));
      Effect(s.db, n.(recovery := r.(sync := sync)), s.published)
    case CapacityReplied =>
      var request := r.sync.request;
      var capacity := if s.db.Capacity(request.room) == None then request.capacity else None;
      Effect(s.db, n.(recovery := r.(sync := Writing(request.room, Pipeline(r.sync.stale, request.peers, capacity)))), s.published)
    case DelExecuted(peer) =>
      Effect(s.db.HDel(r.sync.room, peer), WithPipeline(n, r.sync.pipeline.(dels := r.sync.pipeline.dels - {peer})), s.published)
    case SetExecuted(peer) =>
      Effect(s.db.HSet(r.sync.room, peer, StoredPeer(e.id, r.sync.pipeline.sets[peer])),
             WithPipeline(n, r.sync.pipeline.(sets := r.sync.pipeline.sets - {peer})), s.published)
    case CapacityExecuted =>
      Effect(s.db.SetCapacity(r.sync.room, r.sync.pipeline.capacity.value),
             WithPipeline(n, r.sync.pipeline.(capacity := None)), s.published)
    case SyncReturned =>
      Effect(s.db, n.(recovery := r.(sync := NoSync)), s.published)
    case LocalLoopEnded =>
      Effect(s.db, n.(recovery := r.(stage := EmptyLoop(n.inst.pendingEmpty, {}))), s.published)
    case EmptyLoopEnded =>
      Effect(s.db, n.(recovery := r.(stage := PublishLoop(r.stage.empties, |n.inst.pendingPeerLeft|, 0))), s.published)
    case PeerLeftReplayed =>
      var stage := r.stage;
      Effect(s.db, n.(recovery := r.(stage := stage.(sent := stage.sent + 1)),
                      replays := n.replays + [Replay(n.dropped + stage.sent, |s.published|)]),
             s.published + [Envelope(e.id, n.inst.pendingPeerLeft[stage.sent])])
    case RecoveryEnded =>
      Effect(s.db, n.(inst := FinishRecovery(n.inst, r.stage.empties, r.stage.total),
                      recovery := NotRecovering, dropped := n.dropped + r.stage.total), s.published)
    case RecoveryAborted =>
      Effect(s.db, n.(recovery := NotRecovering), s.published)
  }

  function WithPipeline(n: Node, pipeline: Pipeline): Node
    requires n.recovery.Recovering? && n.recovery.sync.Writing?
  {
    n.(recovery := n.recovery.(sync := n.recovery.sync.(pipeline := pipeline)))
  }

  /** Joins and leaves on their way concern rooms the instance holds nobody in, and a join has its room to itself. */
  ghost predicate Isolated(n: Node) {
    && (forall r, p :: (r, p) in n.joining ==> r !in n.inst.rooms)
    && (forall r, p :: (r, p) in n.leaving ==> r !in n.inst.rooms)
    && (forall r, p, q :: (r, p) in n.joining && (r, q) in n.joining ==> p == q)
    && (forall r, p, q :: (r, p) in n.joining ==> (r, q) !in n.leaving)
  }

  /**
   The two assumptions about timing. When readiness is lost, what is on its way is isolated; and no leave
   of the instance's own empties a room between the moment its recovery copies the pending rooms and the end of that
   recovery. Neither is enforced by the code.
   */
  ghost predicate Tame(s: System, e: Event) {
    var n := s.NodeOf(e.id);
    match e.action
    case StoreLost => Isolated(n)
    case LeaveCalled(room, peer) => n.AfterSnapshot() && n.inst.Holds(room, peer) ==> room in LocalLeave(n.inst.rooms, room, peer)
    case _ => true
  }

  /** The state a sequence of events leads to, if each is enabled when it comes. */
  function Run(events: seq<Event>): Option<System> {
    if events == [] then Some(INITIAL)
    else
      var before, e := Run(events[..|events| - 1]), events[|events| - 1];
      if before.Some? && Enabled(before.value, e) then Some(Next(before.value, e)) else None
  }

  ghost predicate TameRun(events: seq<Event>) {
    forall k | 0 <= k < |events| ::
      Run(events[..k]).Some? ==> Tame(Run(events[..k]).value, events[k])
  }
}
