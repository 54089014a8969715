/** What the events of a run say about the state it leads to, without a look at how the steps get there. */
module RelayHistory {
  import opened RelayTypes
  import opened RedisStore
  import opened LocalCoordinator
  import opened RelayCoordinator
  import opened RelaySystem
  import opened RelaySafety

  // ---------------------------------------------------------------- who is held

  /** The last that the instance did about the peer was to take in its accepted join, and not to let it leave. */
  predicate Staying(events: seq<Event>, id: InstanceId, r: RoomId, p: PeerId) {
    events != [] &&
    var last := events[|events| - 1];
    if last.id == id && last.action == JoinReplied(r, p) then true
    else if last.id == id && last.action == LeaveCalled(r, p) then false
    else Staying(events[..|events| - 1], id, r, p)
  }

  lemma StepHolds(s: System, e: Event, id: InstanceId, r: RoomId, p: PeerId)
    requires Enabled(s, e)
    ensures Next(s, e).NodeOf(id).inst.Holds(r, p) <==>
            if e.id == id && e.action == JoinReplied(r, p) then true
            else if e.id == id && e.action == LeaveCalled(r, p) then false
            else s.NodeOf(id).inst.Holds(r, p)
  {
    var n := s.NodeOf(e.id);
    if e.id == id {
      match e.action
      case JoinReplied(room, peer) =>
      case LeaveCalled(room, peer) => LeaveHolds(n.inst, n.IsReady(), room, peer);
      case _ =>
        if n.recovery.Recovering? && RecoveryEnabled(n, e.action) {
          RecoveryKeepsRooms(s, n, e);
        }
    }
  }

  lemma RecoveryKeepsRooms(s: System, n: Node, e: Event)
    requires n.recovery.Recovering? && RecoveryEnabled(n, e.action)
    ensures RecoveryStep(s, n, e).node.inst.rooms == n.inst.rooms
  {
  }

  /** In every run, an instance holds exactly the peers it took in and has not let leave since. */
  lemma {:induction false} HeldExactly(events: seq<Event>, id: InstanceId, r: RoomId, p: PeerId)
    requires Run(events).Some?
    ensures Run(events).value.NodeOf(id).inst.Holds(r, p) <==> Staying(events, id, r, p)
  {
    hide Enabled, Next;
    if events != [] {
      var before := events[..|events| - 1];
      RunPrefix(events, |before|);
      HeldExactly(before, id, r, p);
      StepHolds(Run(before).value, events[|events| - 1], id, r, p);
    }
  }

  /** Nobody is in a room only if the instance does not have it. */
  ghost predicate NodeOccupied(n: Node) {
    Occupied(n.inst.rooms)
  }

  lemma StepOccupied(s: System, e: Event, id: InstanceId)
    requires Enabled(s, e) && NodeOccupied(s.NodeOf(id))
    ensures NodeOccupied(Next(s, e).NodeOf(id))
  {
    var n := s.NodeOf(e.id);
    if e.id == id {
      match e.action
      case JoinReplied(room, peer) => JoinOccupies(n.inst, room, peer, n.joining[(room, peer)]);
      case LeaveCalled(room, peer) => LeaveOccupied(n.inst.rooms, room, peer);
      case _ =>
        if n.recovery.Recovering? && RecoveryEnabled(n, e.action) {
          RecoveryKeepsRooms(s, n, e);
        }
    }
  }

  lemma LeaveOccupied(rooms: Rooms, room: RoomId, peer: PeerId)
    requires Occupied(rooms)
    ensures Occupied(LocalLeave(rooms, room, peer))
  {
    if room in rooms {
      var peers := rooms[room].peers - {peer};
      assert peers == map[] ==> |peers| == 0;
    }
  }

  lemma JoinOccupies(inst: Instance, room: RoomId, peer: PeerId, wish: JoinWish)
    requires Occupied(inst.rooms)
    ensures Occupied(RecordJoin(inst, room, peer, wish.protocol, wish.maxPeers).rooms)
  {
    var rooms := RecordJoin(inst, room, peer, wish.protocol, wish.maxPeers).rooms;
    assert peer in rooms[room].peers;
  }

  lemma {:induction false} RunOccupied(events: seq<Event>, id: InstanceId)
    requires Run(events).Some?
    ensures NodeOccupied(Run(events).value.NodeOf(id))
  {
    hide Enabled, Next;
    if events != [] {
      RunPrefix(events, |events| - 1);
      RunOccupied(events[..|events| - 1], id);
      StepOccupied(Run(events[..|events| - 1]).value, events[|events| - 1], id);
    } else {
      assert NodeOccupied(NEW_NODE);
    }
  }

  // ---------------------------------------------------------------- what is published

  /** A message goes out at once if the instance is ready; if not, it is queued behind the others if it is a `peer-left`. */
  lemma PublishExactly(s: System, e: Event)
    requires Enabled(s, e) && e.action.PublishCalled?
    ensures var n, n', message := s.NodeOf(e.id), Next(s, e).NodeOf(e.id), e.action.message;
            var ready := n.storeReady && n.inst.readyForJoins;
            && Next(s, e).published == s.published + (if ready then [Envelope(e.id, message)] else [])
            && n'.inst.pendingPeerLeft ==
               n.inst.pendingPeerLeft + (if !ready && message.PeerLeft? then [message] else [])
            && Next(s, e).db == s.db
  {
  }

  // ---------------------------------------------------------------- capacities across a recovery

  /** The event writes a capacity key of the room. */
  predicate SetsCapacity(s: System, e: Event, r: RoomId) {
    && e.action.CapacityExecuted?
    && s.NodeOf(e.id).recovery.Recovering? && s.NodeOf(e.id).recovery.sync.Writing?
    && s.NodeOf(e.id).recovery.sync.room == r
  }

  /** While the instance holds somebody in the room, only a capacity command of a sync touches its key. */
  lemma CapacityStays(s: System, e: Event, id: InstanceId, r: RoomId)
    requires Inv(s) && Enabled(s, e) && !SetsCapacity(s, e, r)
    requires r in s.NodeOf(id).inst.rooms && NodeOccupied(s.NodeOf(id))
    requires e.id == id ==> !s.NodeOf(id).IsReady()
    ensures Next(s, e).db.Capacity(r) == s.db.Capacity(r)
  {
    var n := s.NodeOf(id);
    var p :| p in n.inst.rooms[r].peers;
    assert NodeInv(s.db, id, n) && NodeInv(s.db, e.id, s.NodeOf(e.id));
    assert n.inst.Holds(r, p) && s.db.Owns(id, r, p);
    hide NodeInv, Debts, Located, SyncSound, Progress, JoinScript, LeaveScript;
    match e.action
    case JoinCalled(room, peer, wish) =>
      JoinLeavesCapacity(s.db, room, peer, StoredPeer(e.id, wish.protocol), wish.maxPeers, r, p);
    case LeaveExecuted(room, peer) =>
      LeaveLeavesCapacity(s.db, room, peer, r, p);
    case _ =>
      if s.NodeOf(e.id).recovery.Recovering? && RecoveryEnabled(s.NodeOf(e.id), e.action) {
        RecoveryCapacity(s, s.NodeOf(e.id), e, r);
      }
  }

  lemma JoinLeavesCapacity(db: Db, room: RoomId, peer: PeerId, stored: StoredPeer, maxPeers: Option<int>, r: RoomId, p: PeerId)
    requires p in db.Peers(r)
    ensures JoinScript(db, room, peer, stored, maxPeers).0.Capacity(r) == db.Capacity(r)
  {
    assert |db.Peers(r)| > 0;
  }

  lemma LeaveLeavesCapacity(db: Db, room: RoomId, peer: PeerId, r: RoomId, p: PeerId)
    requires p in db.Peers(r) && !(room == r && peer == p)
    ensures LeaveScript(db, room, peer).Capacity(r) == db.Capacity(r)
  {
    if room == r {
      assert db.HDel(r, peer).Entry(r, p) == db.Entry(r, p);
      assert p in db.HDel(r, peer).Peers(r);
    }
  }

  lemma RecoveryCapacity(s: System, n: Node, e: Event, r: RoomId)
    requires n.recovery.Recovering? && RecoveryEnabled(n, e.action)
    requires e.action.CapacityExecuted? ==> n.recovery.sync.room != r
    ensures RecoveryStep(s, n, e).db.Capacity(r) == s.db.Capacity(r)
  {
  }

  /** What a restored key is: the one found, or else the instance's own. */
  function Restored(found: Option<int>, own: Option<int>): Option<int> {
    if found.Some? then found else own
  }

  /** Undisturbed, the key is `key`; with others writing it too, it is at least there if `key` is. */
  ghost predicate KeyIs(db: Db, r: RoomId, key: Option<int>, alone: bool) {
    if alone then db.Capacity(r) == key else key.Some? ==> db.Capacity(r).Some?
  }

  /** How far a recovery is with the key of a room the instance holds throughout. */
  ghost predicate OnItsWay(db: Db, n: Node, r: RoomId, found: Option<int>, own: Option<int>, alone: bool) {
    && n.recovery.Recovering? && !n.IsReady()
    && r in n.inst.rooms && n.inst.rooms[r].capacity == own
    && match n.recovery.stage
       case LocalLoop(done) =>
         (match n.recovery.sync
          case NoSync => true
          case Called(request) => request.room == r ==>
            request.peers != map[] && request.capacity == own && KeyIs(db, r, found, alone) && r in done
          case HashRead(request, _) => request.room == r ==>
            request.capacity == own && own.Some? && KeyIs(db, r, found, alone) && r in done
          case Writing(room, pipeline) => room == r ==>
            && r in done
            && (if pipeline.capacity.Some? then pipeline.capacity == own && (alone ==> found.None? && db.Capacity(r).None?)
                else KeyIs(db, r, Restored(found, own), alone))
            && KeyIs(db, r, found, false))
         && (!n.recovery.sync.In(r) ==> KeyIs(db, r, if r in done then Restored(found, own) else found, alone))
       case _ => KeyIs(db, r, Restored(found, own), alone) && !n.recovery.sync.In(r)
  }

  lemma OthersOnItsWay(s: System, e: Event, id: InstanceId, r: RoomId, found: Option<int>, own: Option<int>, alone: bool)
    requires Inv(s) && Enabled(s, e) && e.id != id && NodeOccupied(s.NodeOf(id))
    requires OnItsWay(s.db, s.NodeOf(id), r, found, own, alone)
    requires alone ==> !SetsCapacity(s, e, r)
    ensures OnItsWay(Next(s, e).db, Next(s, e).NodeOf(id), r, found, own, alone)
  {
    assert Next(s, e).NodeOf(id) == s.NodeOf(id);
    if SetsCapacity(s, e, r) {
      assert Next(s, e).db.Capacity(r).Some?;
    } else {
      CapacityStays(s, e, id, r);
    }
  }

  /** A step of the instance that is none of its recovery. */
  lemma AsideOnItsWay(s: System, e: Event, r: RoomId, found: Option<int>, own: Option<int>, alone: bool)
    requires Inv(s) && Enabled(s, e) && NodeOccupied(s.NodeOf(e.id)) && !OfRecovery(e.action)
    requires r in Next(s, e).NodeOf(e.id).inst.rooms
    requires OnItsWay(s.db, s.NodeOf(e.id), r, found, own, alone)
    ensures OnItsWay(Next(s, e).db, Next(s, e).NodeOf(e.id), r, found, own, alone)
  {
    hide Step, Enabled, Next, Mirror, Debts, SyncSound, Progress;
    assert NodeInv(s.db, e.id, s.NodeOf(e.id));
    CapacityStays(s, e, e.id, r);
    AsideKeepsRecovery(s, e, r);
    SameWay(s.db, s.NodeOf(e.id), Next(s, e).db, Next(s, e).NodeOf(e.id), r, found, own, alone);
  }

  lemma SameWay(db: Db, n: Node, db': Db, n': Node, r: RoomId, found: Option<int>, own: Option<int>, alone: bool)
    requires OnItsWay(db, n, r, found, own, alone) && db'.Capacity(r) == db.Capacity(r)
    requires n'.recovery.Recovering? && n'.recovery.stage == n.recovery.stage && n'.recovery.sync == n.recovery.sync
    requires !n'.inst.readyForJoins
    requires r in n'.inst.rooms && n'.inst.rooms[r].capacity == n.inst.rooms[r].capacity
    ensures OnItsWay(db', n', r, found, own, alone)
  {
  }

  lemma AsideKeepsRecovery(s: System, e: Event, r: RoomId)
    requires Enabled(s, e) && !OfRecovery(e.action)
    requires s.NodeOf(e.id).recovery.Recovering? && !s.NodeOf(e.id).inst.readyForJoins
    requires r in s.NodeOf(e.id).inst.rooms && r in Next(s, e).NodeOf(e.id).inst.rooms
    ensures var n, n' := s.NodeOf(e.id), Next(s, e).NodeOf(e.id);
            && n'.recovery.Recovering? && n'.recovery.stage == n.recovery.stage && n'.recovery.sync == n.recovery.sync
            && !n'.inst.readyForJoins && n'.inst.rooms[r].capacity == n.inst.rooms[r].capacity
  {
  }

  lemma RecoveryOnItsWay(s: System, e: Event, r: RoomId, found: Option<int>, own: Option<int>, alone: bool)
    requires Inv(s) && Enabled(s, e) && NodeOccupied(s.NodeOf(e.id)) && OfRecovery(e.action)
    requires !e.action.RecoveryEnded? && !e.action.RecoveryAborted?
    requires OnItsWay(s.db, s.NodeOf(e.id), r, found, own, alone)
    ensures OnItsWay(Next(s, e).db, Next(s, e).NodeOf(e.id), r, found, own, alone)
  {
    hide NodeInv, Inv, OnItsWay, Step, RecoveryStep, Next, Enabled, RecoveryEnabled;
    OwedIsNotHeld(s, e.id, r, found, own, alone);
    if e.action.SyncCalled? {
      CallOnItsWay(s, e, r, found, own, alone);
    } else if e.action.HashReplied? {
      HashOnItsWay(s, e, r, found, own, alone);
    } else if e.action.CapacityReplied? {
      KeyOnItsWay(s, e, r, found, own, alone);
    } else if e.action.CapacityExecuted? {
      CapacityOnItsWay(s, e, r, found, own, alone);
    } else if e.action.DelExecuted? || e.action.SetExecuted? {
      WriteOnItsWay(s, e, r, found, own, alone);
    } else if e.action.SyncReturned? {
      ReturnOnItsWay(s, e, r, found, own, alone);
    } else {
      LoopOnItsWay(s, e, r, found, own, alone);
    }
  }

  lemma OwedIsNotHeld(s: System, id: InstanceId, r: RoomId, found: Option<int>, own: Option<int>, alone: bool)
    requires Inv(s) && OnItsWay(s.db, s.NodeOf(id), r, found, own, alone)
    ensures var stage := s.NodeOf(id).recovery.stage; stage.EmptyLoop? ==> r !in stage.empties
  {
    assert NodeInv(s.db, id, s.NodeOf(id));
  }

  lemma CallOnItsWay(s: System, e: Event, r: RoomId, found: Option<int>, own: Option<int>, alone: bool)
    requires Enabled(s, e) && e.action.SyncCalled? && NodeOccupied(s.NodeOf(e.id))
    requires OnItsWay(s.db, s.NodeOf(e.id), r, found, own, alone)
    requires var stage := s.NodeOf(e.id).recovery.stage; stage.EmptyLoop? ==> r !in stage.empties
    ensures OnItsWay(Next(s, e).db, Next(s, e).NodeOf(e.id), r, found, own, alone)
  {
  }

  lemma KeyOnItsWay(s: System, e: Event, r: RoomId, found: Option<int>, own: Option<int>, alone: bool)
    requires Enabled(s, e) && e.action.CapacityReplied?
    requires OnItsWay(s.db, s.NodeOf(e.id), r, found, own, alone)
    ensures OnItsWay(Next(s, e).db, Next(s, e).NodeOf(e.id), r, found, own, alone)
  {
  }

  lemma WriteOnItsWay(s: System, e: Event, r: RoomId, found: Option<int>, own: Option<int>, alone: bool)
    requires Enabled(s, e) && (e.action.DelExecuted? || e.action.SetExecuted?)
    requires OnItsWay(s.db, s.NodeOf(e.id), r, found, own, alone)
    ensures OnItsWay(Next(s, e).db, Next(s, e).NodeOf(e.id), r, found, own, alone)
  {
    RecoveryCapacity(s, s.NodeOf(e.id), e, r);
  }

  lemma ReturnOnItsWay(s: System, e: Event, r: RoomId, found: Option<int>, own: Option<int>, alone: bool)
    requires Enabled(s, e) && e.action.SyncReturned?
    requires OnItsWay(s.db, s.NodeOf(e.id), r, found, own, alone)
    ensures OnItsWay(Next(s, e).db, Next(s, e).NodeOf(e.id), r, found, own, alone)
  {
  }

  lemma LoopOnItsWay(s: System, e: Event, r: RoomId, found: Option<int>, own: Option<int>, alone: bool)
    requires Enabled(s, e) && (e.action.LocalLoopEnded? || e.action.EmptyLoopEnded? || e.action.PeerLeftReplayed?)
    requires OnItsWay(s.db, s.NodeOf(e.id), r, found, own, alone)
    ensures OnItsWay(Next(s, e).db, Next(s, e).NodeOf(e.id), r, found, own, alone)
  {
  }

  lemma CapacityOnItsWay(s: System, e: Event, r: RoomId, found: Option<int>, own: Option<int>, alone: bool)
    requires Enabled(s, e) && e.action.CapacityExecuted?
    requires OnItsWay(s.db, s.NodeOf(e.id), r, found, own, alone)
    ensures OnItsWay(Next(s, e).db, Next(s, e).NodeOf(e.id), r, found, own, alone)
  {
  }

  lemma HashOnItsWay(s: System, e: Event, r: RoomId, found: Option<int>, own: Option<int>, alone: bool)
    requires Enabled(s, e) && e.action.HashReplied?
    requires OnItsWay(s.db, s.NodeOf(e.id), r, found, own, alone)
    ensures OnItsWay(Next(s, e).db, Next(s, e).NodeOf(e.id), r, found, own, alone)
  {
    var request := s.NodeOf(e.id).recovery.sync.request;
    assert request.peers != map[] ==> |request.peers| > 0;
  }

  /** Nobody else writes the room's key from event `from` on. */
  ghost predicate NobodyElseSets(events: seq<Event>, from: nat, id: InstanceId, r: RoomId) {
    forall k | from <= k < |events| && events[k].id != id ::
      Run(events[..k]).Some? ==> !SetsCapacity(Run(events[..k]).value, events[k], r)
  }

  /** Events of its own that end a recovery. */
  predicate Ends(id: InstanceId, e: Event) {
    e.id == id && (e.action.RecoveryEnded? || e.action.RecoveryAborted?)
  }

  /** The instance has somebody in the room at every point from event `from` on. */
  ghost predicate LocalThroughout(events: seq<Event>, from: nat, id: InstanceId, r: RoomId) {
    forall k | from <= k <= |events| ::
      Run(events[..k]).Some? ==> r in Run(events[..k]).value.NodeOf(id).inst.rooms
  }

  /** The events from `from` on are a recovery's beginning and what follows it, short of its end. */
  ghost predicate Recovers(events: seq<Event>, from: nat, id: InstanceId) {
    && from < |events| && events[from] == Event(id, StoreReady)
    && Run(events[..from]).Some? && Run(events[..from]).value.NodeOf(id).recovery == NotRecovering
    && forall k | from < k < |events| :: !Ends(id, events[k])
  }

  lemma {:induction false} WhileOnItsWay(events: seq<Event>, from: nat, id: InstanceId, r: RoomId, alone: bool)
    requires TameRun(events) && Run(events).Some? && Recovers(events, from, id)
    requires r in Run(events[..from]).value.NodeOf(id).inst.rooms && LocalThroughout(events, from, id, r)
    requires alone ==> NobodyElseSets(events, from, id, r)
    ensures var s, t := Run(events[..from]).value, Run(events).value;
            OnItsWay(t.db, t.NodeOf(id), r, s.db.Capacity(r), s.NodeOf(id).inst.rooms[r].capacity, alone)
    decreases |events|
  {
    hide Enabled, Next, OnItsWay, SetsCapacity, Ends, Run, Inv;
    var n := |events| - 1;
    var before, last := events[..n], events[n];
    RunPrefix(events, n);
    TamePrefix(events, n);
    RunLast(events);
    var s, t := Run(events[..from]).value, Run(before).value;
    if from == n {
      StartsOnItsWay(s, id, r, alone);
    } else {
      var found, own := s.db.Capacity(r), s.NodeOf(id).inst.rooms[r].capacity;
      assert before[..from] == events[..from];
      forall k | from <= k <= n ensures before[..k] == events[..k] {
      }
      assert events[..|events|] == events;
      WhileOnItsWay(before, from, id, r, alone);
      RunInv(before);
      RunOccupied(before, id);
      StepOnItsWay(t, last, id, r, found, own, alone);
    }
  }

  lemma RunLast(events: seq<Event>)
    requires Run(events).Some? && events != []
    ensures var n := |events| - 1;
            && Run(events[..n]).Some? && Enabled(Run(events[..n]).value, events[n])
            && Run(events).value == Next(Run(events[..n]).value, events[n])
  {
  }

  lemma StepOnItsWay(s: System, e: Event, id: InstanceId, r: RoomId, found: Option<int>, own: Option<int>, alone: bool)
    requires Inv(s) && Enabled(s, e) && NodeOccupied(s.NodeOf(id)) && !Ends(id, e)
    requires r in Next(s, e).NodeOf(id).inst.rooms
    requires OnItsWay(s.db, s.NodeOf(id), r, found, own, alone)
    requires alone && e.id != id ==> !SetsCapacity(s, e, r)
    ensures OnItsWay(Next(s, e).db, Next(s, e).NodeOf(id), r, found, own, alone)
  {
    hide Enabled, Next, OnItsWay, SetsCapacity, Inv;
    if e.id != id {
      OthersOnItsWay(s, e, id, r, found, own, alone);
    } else if OfRecovery(e.action) {
      RecoveryOnItsWay(s, e, r, found, own, alone);
    } else {
      AsideOnItsWay(s, e, r, found, own, alone);
    }
  }

  lemma StartsOnItsWay(s: System, id: InstanceId, r: RoomId, alone: bool)
    requires Enabled(s, Event(id, StoreReady)) && s.NodeOf(id).recovery == NotRecovering && r in s.NodeOf(id).inst.rooms
    ensures var t := Next(s, Event(id, StoreReady));
            OnItsWay(t.db, t.NodeOf(id), r, s.db.Capacity(r), s.NodeOf(id).inst.rooms[r].capacity, alone)
  {
  }

  /**
   After a recovery, a room the instance was in throughout has the capacity key the recovery found, or if there was none,
   the one the instance knows. If others wrote the key meanwhile, it is there at any rate if either was.
   */
  lemma RecoveryRestoresCapacity(events: seq<Event>, from: nat, id: InstanceId, r: RoomId)
    requires TameRun(events) && Run(events).Some? && events != [] && events[|events| - 1] == Event(id, RecoveryEnded)
    requires Recovers(events[..|events| - 1], from, id)
    requires Run(events[..from]).Some? && r in Run(events[..from]).value.NodeOf(id).inst.rooms
    requires LocalThroughout(events, from, id, r)
    ensures var s, t := Run(events[..from]).value, Run(events).value;
            var found, own, key := s.db.Capacity(r), s.NodeOf(id).inst.rooms[r].capacity, t.db.Capacity(r);
            && (found.Some? || own.Some? ==> key.Some?)
            && (NobodyElseSets(events, from, id, r) ==> key == if found.Some? then found else own)
  {
    hide Enabled, Next, OnItsWay, SetsCapacity, Ends, Run;
    var n := |events| - 1;
    var before := events[..n];
    RunPrefix(events, n);
    TamePrefix(events, n);
    RunLast(events);
    forall k | from <= k <= n ensures before[..k] == events[..k] {
    }
    var s, t := Run(events[..from]).value, Run(before).value;
    var found, own := s.db.Capacity(r), s.NodeOf(id).inst.rooms[r].capacity;
    WhileOnItsWay(before, from, id, r, false);
    EndsRestored(t, id, r, found, own, false);
    if NobodyElseSets(events, from, id, r) {
      WhileOnItsWay(before, from, id, r, true);
      EndsRestored(t, id, r, found, own, true);
    }
  }

  lemma EndsRestored(t: System, id: InstanceId, r: RoomId, found: Option<int>, own: Option<int>, alone: bool)
    requires Enabled(t, Event(id, RecoveryEnded)) && OnItsWay(t.db, t.NodeOf(id), r, found, own, alone)
    ensures KeyIs(Next(t, Event(id, RecoveryEnded)).db, r, Restored(found, own), alone)
  {
  }

  // ---------------------------------------------------------------- ghost entries

  /** An entry the instance owns in Redis for a peer it neither holds nor has on its way in or out. */
  predicate Orphan(db: Db, id: InstanceId, n: Node, r: RoomId, p: PeerId) {
    db.Owns(id, r, p) && !n.inst.Holds(r, p) && (r, p) !in n.joining && (r, p) !in n.leaving
  }

  /** The three ways an entry loses its peer: a reply that never comes, and a leave Redis is not told of. */
  predicate Orphans(n: Node, action: Action, r: RoomId, p: PeerId) {
    action == JoinLost(r, p) || action == LeaveLost(r, p) || (action == LeaveCalled(r, p) && !n.IsReady())
  }

  /** A sync deletes the entry. */
  predicate Deletes(n: Node, action: Action, r: RoomId, p: PeerId) {
    && action == DelExecuted(p)
    && n.recovery.Recovering? && n.recovery.sync.Writing? && n.recovery.sync.room == r
  }

  /** An entry becomes a ghost in these three ways only, and stays one until a sync of its own instance deletes it. */
  lemma OrphansExactly(s: System, e: Event, id: InstanceId, r: RoomId, p: PeerId)
    requires Inv(s) && Enabled(s, e)
    ensures var n, s' := s.NodeOf(id), Next(s, e);
            Orphan(s'.db, id, s'.NodeOf(id), r, p) <==>
            if e.id == id && Orphans(n, e.action, r, p) then true
            else Orphan(s.db, id, n, r, p) && !(e.id == id && Deletes(n, e.action, r, p))
  {
    hide NodeInv, Step;
    var n := s.NodeOf(e.id);
    assert NodeInv(s.db, e.id, n) && NodeInv(s.db, id, s.NodeOf(id));
    if e.id != id {
      StepKeepsOthers(s, e);
    } else if OfRecovery(e.action) {
      RecoveryOrphans(s, e, r, p);
    } else {
      OtherOrphans(s, e, r, p);
    }
  }

  lemma OtherOrphans(s: System, e: Event, r: RoomId, p: PeerId)
    requires NodeInv(s.db, e.id, s.NodeOf(e.id)) && Enabled(s, e) && !OfRecovery(e.action)
    ensures var n, s' := s.NodeOf(e.id), Next(s, e);
            Orphan(s'.db, e.id, s'.NodeOf(e.id), r, p) <==> Orphans(n, e.action, r, p) || Orphan(s.db, e.id, n, r, p)
  {
    hide Debts, Located, SyncSound, Progress, JoinScript, LeaveScript, RecordLeave;
    var n := s.NodeOf(e.id);
    match e.action
    case JoinCalled(room, peer, wish) => JoinScriptEntries(s.db, room, peer, StoredPeer(e.id, wish.protocol), wish.maxPeers);
    case LeaveExecuted(room, peer) => LeaveScriptEntries(s.db, room, peer);
    case LeaveCalled(room, peer) => LeaveHolds(n.inst, n.IsReady(), room, peer);
    case _ =>
  }

  lemma RecoveryOrphans(s: System, e: Event, r: RoomId, p: PeerId)
    requires NodeInv(s.db, e.id, s.NodeOf(e.id)) && Enabled(s, e) && OfRecovery(e.action)
    ensures var n, s' := s.NodeOf(e.id), Next(s, e);
            Orphan(s'.db, e.id, s'.NodeOf(e.id), r, p) <==>
            Orphan(s.db, e.id, n, r, p) && !Deletes(n, e.action, r, p)
  {
    hide Mirror, Debts, Located, Progress;
  }

  /** An instance without lost replies, whose peers stay while it recovers. */
  predicate Steady(s: System, e: Event, id: InstanceId) {
    e.id == id ==>
      && !e.action.JoinLost? && !e.action.LeaveLost?
      && (e.action.LeaveCalled? ==> s.NodeOf(id).recovery.NotRecovering?)
  }

  ghost predicate SteadyRun(events: seq<Event>, id: InstanceId) {
    forall k | 0 <= k < |events| ::
      Run(events[..k]).Some? ==> Steady(Run(events[..k]).value, events[k], id)
  }

  /** Ghosts are left while the instance is not ready only, in rooms it will sync, or that its recovery is to sync. */
  ghost predicate Accounted(db: Db, id: InstanceId, n: Node) {
    && (n.recovery.Recovering? ==> n.recovery.quiet)
    && forall r, p | Orphan(db, id, n, r, p) ::
         && !n.IsReady() && (r in n.inst.rooms || r in n.inst.pendingEmpty)
         && (n.recovery.Recovering? ==> r in n.recovery.startRooms || r in n.recovery.startEmpties)
  }

  lemma StepAccounted(s: System, e: Event, id: InstanceId)
    requires Inv(s) && Enabled(s, e) && Steady(s, e, id) && Accounted(s.db, id, s.NodeOf(id))
    ensures Accounted(Next(s, e).db, id, Next(s, e).NodeOf(id))
  {
    hide NodeInv, Step, Orphan, Deletes, Enabled;
    var n, s' := s.NodeOf(id), Next(s, e);
    assert NodeInv(s.db, id, n);
    if e.id == id {
      StaysQuiet(s, e);
      if e.action == RecoveryEnded {
        forall r, p ensures !Orphan(s'.db, id, s'.NodeOf(id), r, p) {
          EndLeavesNone(s, e, r, p);
        }
        return;
      }
    }
    forall r, p | Orphan(s'.db, id, s'.NodeOf(id), r, p)
      ensures var n' := s'.NodeOf(id);
              && !n'.IsReady() && (r in n'.inst.rooms || r in n'.inst.pendingEmpty)
              && (n'.recovery.Recovering? ==> r in n'.recovery.startRooms || r in n'.recovery.startEmpties) {
      OrphansExactly(s, e, id, r, p);
      if e.id == id {
        if e.action == LeaveCalled(r, p) && !n.IsReady() {
          LeftIsOwed(s, e, r, p);
        } else {
          StaysOwed(s, e, r);
        }
      }
    }
  }

  lemma StaysQuiet(s: System, e: Event)
    requires Enabled(s, e) && Steady(s, e, e.id)
    requires s.NodeOf(e.id).recovery.Recovering? ==> s.NodeOf(e.id).recovery.quiet
    ensures Next(s, e).NodeOf(e.id).recovery.Recovering? ==> Next(s, e).NodeOf(e.id).recovery.quiet
  {
  }

  lemma LeftIsOwed(s: System, e: Event, r: RoomId, p: PeerId)
    requires Enabled(s, e) && e.action == LeaveCalled(r, p) && !s.NodeOf(e.id).IsReady()
    requires s.NodeOf(e.id).recovery.NotRecovering?
    ensures var n' := Next(s, e).NodeOf(e.id);
            && !n'.IsReady() && (r in n'.inst.rooms || r in n'.inst.pendingEmpty) && n'.recovery.NotRecovering?
  {
  }

  lemma StaysOwed(s: System, e: Event, r: RoomId)
    requires NodeInv(s.db, e.id, s.NodeOf(e.id)) && Enabled(s, e) && Steady(s, e, e.id) && e.action != RecoveryEnded
    requires var n := s.NodeOf(e.id);
             && !n.IsReady() && (r in n.inst.rooms || r in n.inst.pendingEmpty)
             && (n.recovery.Recovering? ==> r in n.recovery.startRooms || r in n.recovery.startEmpties)
    ensures var n' := Next(s, e).NodeOf(e.id);
            && !n'.IsReady() && (r in n'.inst.rooms || r in n'.inst.pendingEmpty)
            && (n'.recovery.Recovering? ==> r in n'.recovery.startRooms || r in n'.recovery.startEmpties)
  {
    hide Mirror, SyncSound, Progress, Debts, RecordLeave;
    if e.action.LeaveCalled? {
      LeaveRooms(s.NodeOf(e.id).inst, false, e.action.room, e.action.peer);
    }
  }

  lemma EndLeavesNone(s: System, e: Event, r: RoomId, p: PeerId)
    requires Inv(s) && Enabled(s, e) && e.action == RecoveryEnded && Accounted(s.db, e.id, s.NodeOf(e.id))
    ensures !Orphan(Next(s, e).db, e.id, Next(s, e).NodeOf(e.id), r, p)
  {
    hide NodeInv;
    OrphansExactly(s, e, e.id, r, p);
    QuietRecoveryEndsExact(s, e.id);
    var recovery := s.NodeOf(e.id).recovery;
    if r in recovery.startRooms + recovery.startEmpties {
      assert Exact(Next(s, e).db, e.id, Next(s, e).NodeOf(e.id).inst.rooms, r);
    }
  }

  lemma {:induction false} RunAccounted(events: seq<Event>, id: InstanceId)
    requires TameRun(events) && SteadyRun(events, id) && Run(events).Some?
    ensures Accounted(Run(events).value.db, id, Run(events).value.NodeOf(id))
  {
    hide Enabled, Next, Accounted, Steady, Run, Inv;
    if events == [] {
      NothingAccounted(id);
    } else {
      var n := |events| - 1;
      var before := events[..n];
      RunPrefix(events, n);
      TamePrefix(events, n);
      RunLast(events);
      forall k | 0 <= k < n ensures before[..k] == events[..k] {
      }
      RunAccounted(before, id);
      RunInv(before);
      StepAccounted(Run(before).value, events[n], id);
    }
  }

  lemma NothingAccounted(id: InstanceId)
    ensures Accounted(Run([]).value.db, id, Run([]).value.NodeOf(id))
  {
    assert Run([]) == Some(INITIAL);
  }

  /**
   In a run of an instance that lost no reply and let nobody leave during a recovery, whenever it is ready, Redis has
   an entry of its own for a peer if and only if it holds that peer or has it on its way in or out.
   */
  lemma NoGhostEntries(events: seq<Event>, id: InstanceId, r: RoomId, p: PeerId)
    requires TameRun(events) && SteadyRun(events, id) && Run(events).Some?
    requires Run(events).value.NodeOf(id).IsReady()
    ensures var s := Run(events).value;
            var n := s.NodeOf(id);
            s.db.Owns(id, r, p) <==> n.inst.Holds(r, p) || (r, p) in n.joining || (r, p) in n.leaving
  {
    RunAccounted(events, id);
    RunInv(events);
    var s := Run(events).value;
    assert NodeInv(s.db, id, s.NodeOf(id));
    assert Orphan(s.db, id, s.NodeOf(id), r, p) ==> !s.NodeOf(id).IsReady();
  }
}
