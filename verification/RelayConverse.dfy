/**
 The timing assumptions are exact: from any state that satisfies the invariant, a step that breaks one of them can be
 continued, with every later step keeping to them, until two instances hold the same peer in the same room.
 */
module RelayConverse {
  import opened RelayTypes
  import opened RedisStore
  import opened LocalCoordinator
  import opened RelayCoordinator
  import opened RelaySystem
  import opened RelaySafety

  ghost predicate TwoHolders(s: System) {
    exists id, id', r, p :: id != id' && s.NodeOf(id).inst.Holds(r, p) && s.NodeOf(id').inst.Holds(r, p)
  }

  // ---------------------------------------------------------------- continuations

  /** The events lead from `s` to `t`, and each is enabled and tame when it comes. */
  ghost predicate TameTo(s: System, events: seq<Event>, t: System)
    decreases |events|
  {
    if events == [] then t == s
    else Enabled(s, events[0]) && Tame(s, events[0]) && TameTo(Next(s, events[0]), events[1..], t)
  }

  ghost predicate Leads(s: System, t: System) {
    exists events :: TameTo(s, events, t)
  }

  lemma LeadsSelf(s: System)
    ensures Leads(s, s)
  {
    assert TameTo(s, [], s);
  }

  lemma {:induction false} TameToOn(s: System, events: seq<Event>, t: System, more: seq<Event>, u: System)
    requires TameTo(s, events, t) && TameTo(t, more, u)
    ensures TameTo(s, events + more, u)
    decreases |events|
  {
    hide Enabled, Tame, Next;
    if events == [] {
      assert events + more == more;
    } else {
      assert (events + more)[0] == events[0] && (events + more)[1..] == events[1..] + more;
      TameToOn(Next(s, events[0]), events[1..], t, more, u);
    }
  }

  lemma LeadsOn(s: System, t: System, u: System)
    requires Leads(s, t) && Leads(t, u)
    ensures Leads(s, u)
  {
    hide TameTo;
    var events, more :| TameTo(s, events, t) && TameTo(t, more, u);
    TameToOn(s, events, t, more, u);
  }

  lemma {:induction false} TameToInv(s: System, events: seq<Event>, t: System)
    requires Inv(s) && TameTo(s, events, t)
    ensures Inv(t)
    decreases |events|
  {
    hide Inv, Enabled, Tame, Next;
    if events != [] {
      StepInv(s, events[0]);
      TameToInv(Next(s, events[0]), events[1..], t);
    }
  }

  lemma InvOneHolder(s: System)
    requires Inv(s)
    ensures !TwoHolders(s)
  {
    forall id, r, p | s.NodeOf(id).inst.Holds(r, p) ensures s.db.Owns(id, r, p) {
      assert NodeInv(s.db, id, s.NodeOf(id));
    }
  }

  /** One instance, and Redis, have changed. */
  ghost predicate Becomes(s: System, id: InstanceId, db: Db, n: Node, t: System) {
    t.db == db && t.NodeOf(id) == n && forall other | other != id :: t.NodeOf(other) == s.NodeOf(other)
  }

  lemma BecomesOn(s: System, id: InstanceId, db1: Db, n1: Node, t: System, db2: Db, n2: Node, u: System)
    requires Becomes(s, id, db1, n1, t) && Becomes(t, id, db2, n2, u)
    ensures Becomes(s, id, db2, n2, u)
  {
  }

  /** One tame event more. */
  lemma Do(s: System, id: InstanceId, action: Action, db: Db, n: Node) returns (t: System)
    requires Enabled(s, Event(id, action)) && Tame(s, Event(id, action))
    requires var effect := Step(s, Event(id, action)); effect.db == db && effect.node == n
    ensures Leads(s, t) && Becomes(s, id, db, n, t)
  {
    hide Enabled, Tame, Step;
    var e := Event(id, action);
    t := Next(s, e);
    assert TameTo(t, [], t);
    assert [e][1..] == [];
    assert TameTo(s, [e], t);
  }

  /** Two continuations of one instance, one after the other. */
  lemma Then(s: System, id: InstanceId, t: System, u: System)
    requires Leads(s, t) && Leads(t, u)
    requires Becomes(s, id, t.db, t.NodeOf(id), t) && Becomes(t, id, u.db, u.NodeOf(id), u)
    ensures Leads(s, u) && Becomes(s, id, u.db, u.NodeOf(id), u)
  {
    hide Leads;
    LeadsOn(s, t, u);
  }

  // ---------------------------------------------------------------- a sync that nobody interrupts

  /** What is left of a pipeline, executed. */
  ghost predicate Written(db: Db, id: InstanceId, room: RoomId, pipeline: Pipeline, db': Db) {
    && (forall r, p :: db'.Entry(r, p) ==
          if r == room && p in pipeline.sets then Some(StoredPeer(id, pipeline.sets[p]))
          else if r == room && p in pipeline.dels then None
          else db.Entry(r, p))
    && db'.capacities == if pipeline.capacity.Some? then db.capacities[room := pipeline.capacity.value] else db.capacities
  }

  function AfterSync(n: Node): Node
    requires n.recovery.Recovering?
  {
    n.(recovery := n.recovery.(sync := NoSync))
  }

  /** Executing `less` gets from `db'` where executing `pipeline` gets from `db`. */
  ghost predicate LessToDo(db: Db, id: InstanceId, room: RoomId, pipeline: Pipeline, db': Db, less: Pipeline) {
    && less.dels <= pipeline.dels && less.sets.Keys <= pipeline.sets.Keys
    && Commands(less) < Commands(pipeline)
    && forall db'' :: Written(db', id, room, less, db'') ==> Written(db, id, room, pipeline, db'')
  }

  lemma DelFirst(db: Db, id: InstanceId, room: RoomId, pipeline: Pipeline, p: PeerId)
    requires p in pipeline.dels && pipeline.dels !! pipeline.sets.Keys
    ensures LessToDo(db, id, room, pipeline, db.HDel(room, p), pipeline.(dels := pipeline.dels - {p}))
  {
  }

  lemma SetFirst(db: Db, id: InstanceId, room: RoomId, pipeline: Pipeline, p: PeerId)
    requires p in pipeline.sets && pipeline.dels == {}
    ensures LessToDo(db, id, room, pipeline, db.HSet(room, p, StoredPeer(id, pipeline.sets[p])),
                     pipeline.(sets := pipeline.sets - {p}))
  {
    assert (pipeline.sets - {p}).Keys == pipeline.sets.Keys - {p};
  }

  lemma CapacityLast(db: Db, id: InstanceId, room: RoomId, pipeline: Pipeline)
    requires pipeline.dels == {} && pipeline.sets == map[] && pipeline.capacity.Some?
    ensures LessToDo(db, id, room, pipeline, db.SetCapacity(room, pipeline.capacity.value), pipeline.(capacity := None))
  {
  }

  /** One command of a pipeline, and what is left of it then. */
  lemma PipelineStep(s: System, id: InstanceId) returns (t: System, less: Pipeline)
    requires var n := s.NodeOf(id);
             n.recovery.Recovering? && n.recovery.sync.Writing? &&
             var pipeline := n.recovery.sync.pipeline;
             pipeline.dels !! pipeline.sets.Keys && pipeline != Pipeline({}, map[], None)
    ensures var n := s.NodeOf(id);
            && Leads(s, t) && Becomes(s, id, t.db, WithPipeline(n, less), t)
            && LessToDo(s.db, id, n.recovery.sync.room, n.recovery.sync.pipeline, t.db, less)
  {
    hide Leads, LessToDo, Enabled, Step, Tame;
    var n := s.NodeOf(id);
    var room, pipeline := n.recovery.sync.room, n.recovery.sync.pipeline;
    if pipeline.dels != {} {
      var p :| p in pipeline.dels;
      less := pipeline.(dels := pipeline.dels - {p});
      DelFirst(s.db, id, room, pipeline, p);
      DelEnabled(s, id, p);
      t := Do(s, id, DelExecuted(p), s.db.HDel(room, p), WithPipeline(n, less));
    } else if pipeline.sets != map[] {
      var p :| p in pipeline.sets;
      less := pipeline.(sets := pipeline.sets - {p});
      SetFirst(s.db, id, room, pipeline, p);
      SetEnabled(s, id, p);
      t := Do(s, id, SetExecuted(p), s.db.HSet(room, p, StoredPeer(id, pipeline.sets[p])), WithPipeline(n, less));
    } else {
      less := pipeline.(capacity := None);
      CapacityLast(s.db, id, room, pipeline);
      CapacityEnabled(s, id);
      t := Do(s, id, CapacityExecuted, s.db.SetCapacity(room, pipeline.capacity.value), WithPipeline(n, less));
    }
  }

  lemma DelEnabled(s: System, id: InstanceId, p: PeerId)
    requires s.NodeOf(id).recovery.Recovering? && s.NodeOf(id).recovery.sync.Writing?
    requires p in s.NodeOf(id).recovery.sync.pipeline.dels
    ensures var e, sync := Event(id, DelExecuted(p)), s.NodeOf(id).recovery.sync;
            && Enabled(s, e) && Tame(s, e)
            && Step(s, e) == Effect(s.db.HDel(sync.room, p),
                                    WithPipeline(s.NodeOf(id), sync.pipeline.(dels := sync.pipeline.dels - {p})), s.published)
  {
  }

  lemma SetEnabled(s: System, id: InstanceId, p: PeerId)
    requires s.NodeOf(id).recovery.Recovering? && s.NodeOf(id).recovery.sync.Writing?
    requires p in s.NodeOf(id).recovery.sync.pipeline.sets && s.NodeOf(id).recovery.sync.pipeline.dels == {}
    ensures var e, sync := Event(id, SetExecuted(p)), s.NodeOf(id).recovery.sync;
            && Enabled(s, e) && Tame(s, e)
            && Step(s, e) == Effect(s.db.HSet(sync.room, p, StoredPeer(id, sync.pipeline.sets[p])),
                                    WithPipeline(s.NodeOf(id), sync.pipeline.(sets := sync.pipeline.sets - {p})), s.published)
  {
  }

  lemma CapacityEnabled(s: System, id: InstanceId)
    requires s.NodeOf(id).recovery.Recovering? && s.NodeOf(id).recovery.sync.Writing?
    requires var pipeline := s.NodeOf(id).recovery.sync.pipeline;
             pipeline.dels == {} && pipeline.sets == map[] && pipeline.capacity.Some?
    ensures var e, sync := Event(id, CapacityExecuted), s.NodeOf(id).recovery.sync;
            && Enabled(s, e) && Tame(s, e)
            && Step(s, e) == Effect(s.db.SetCapacity(sync.room, sync.pipeline.capacity.value),
                                    WithPipeline(s.NodeOf(id), sync.pipeline.(capacity := None)), s.published)
  {
  }

  function Commands(pipeline: Pipeline): nat {
    |pipeline.dels| + |pipeline.sets.Keys| + if pipeline.capacity.Some? then 1 else 0
  }

  lemma {:induction false} PipelineRuns(s: System, id: InstanceId) returns (t: System)
    requires var n := s.NodeOf(id);
             n.recovery.Recovering? && n.recovery.sync.Writing? &&
             n.recovery.sync.pipeline.dels !! n.recovery.sync.pipeline.sets.Keys
    ensures var n := s.NodeOf(id);
            && Leads(s, t) && Becomes(s, id, t.db, AfterSync(n), t)
            && Written(s.db, id, n.recovery.sync.room, n.recovery.sync.pipeline, t.db)
    decreases Commands(s.NodeOf(id).recovery.sync.pipeline)
  {
    hide Leads;
    var n := s.NodeOf(id);
    if n.recovery.sync.pipeline == Pipeline({}, map[], None) {
      t := Do(s, id, SyncReturned, s.db, AfterSync(n));
    } else {
      hide Written, Commands;
      var u, less := PipelineStep(s, id);
      t := PipelineRuns(u, id);
      Then(s, id, u, t);
    }
  }

  /** The request `syncRoom` was called with, carried out in full. */
  lemma SyncRuns(s: System, id: InstanceId) returns (t: System)
    requires var n := s.NodeOf(id);
             n.recovery.Recovering? && n.recovery.sync.Called? && n.recovery.sync.request.instance == id
    ensures var n := s.NodeOf(id);
            Leads(s, t) && Becomes(s, id, t.db, AfterSync(n), t) && Synced(s.db, n.recovery.sync.request, t.db)
  {
    hide Leads, Commands;
    var n := s.NodeOf(id);
    var request := n.recovery.sync.request;
    var u := HashReplies(s, id);
    if ReadsCapacity(request) {
      var capacity := if s.db.Capacity(request.room) == None then request.capacity else None;
      var stale := Stale(request, s.db.Peers(request.room));
      var v := Do(u, id, CapacityReplied, u.db,
                  n.(recovery := n.recovery.(sync := Writing(request.room, Pipeline(stale, request.peers, capacity)))));
      Then(s, id, u, v);
      t := PipelineRuns(v, id);
      Then(s, id, v, t);
    } else {
      t := PipelineRuns(u, id);
      Then(s, id, u, t);
    }
  }

  lemma HashReplies(s: System, id: InstanceId) returns (t: System)
    requires s.NodeOf(id).recovery.Recovering? && s.NodeOf(id).recovery.sync.Called?
    ensures var n := s.NodeOf(id);
            var request := n.recovery.sync.request;
            var stale := Stale(request, s.db.Peers(request.room));
            var sync := if ReadsCapacity(request) then HashRead(request, stale)
                        else Writing(request.room, Pipeline(stale, request.peers, None));
            Leads(s, t) && Becomes(s, id, s.db, n.(recovery := n.recovery.(sync := sync)), t)
  {
    hide Leads;
    var n := s.NodeOf(id);
    var request := n.recovery.sync.request;
    var stale := Stale(request, s.db.Peers(request.room));
    var sync := if ReadsCapacity(request) then HashRead(request, stale)
                else Writing(request.room, Pipeline(stale, request.peers, None));
    t := Do(s, id, HashReplied, s.db, n.(recovery := n.recovery.(sync := sync)));
  }

  // ---------------------------------------------------------------- a recovery that runs to its end

  /** Nobody but `keys` is in the room, and its capacity is `capacity`. */
  ghost predicate Crowd(db: Db, room: RoomId, keys: set<PeerId>, capacity: Option<int>) {
    db.Peers(room).Keys <= keys && db.Capacity(room) == capacity
  }

  /** A sync of another room, or one that sets none but `keys`, does not add to the crowd. */
  lemma SyncKeepsCrowd(db: Db, request: SyncRequest, db': Db, room: RoomId, keys: set<PeerId>, capacity: Option<int>)
    requires Synced(db, request, db') && Crowd(db, room, keys, capacity)
    requires request.room == room ==> request.peers.Keys <= keys && request.capacity == None
    ensures Crowd(db', room, keys, capacity)
  {
    forall p | p in db'.Peers(room) ensures p in keys {
      assert db'.Entry(room, p).Some?;
      assert p in db.Peers(room) <==> db.Entry(room, p).Some?;
    }
  }

  lemma SyncKeepsOwned(db: Db, request: SyncRequest, db': Db, room: RoomId, p: PeerId)
    requires Synced(db, request, db') && db.Owns(request.instance, room, p)
    requires request.room == room ==> p in request.peers
    ensures db'.Owns(request.instance, room, p)
  {
  }

  /** A room of the list, called and synced. */
  lemma RoomRuns(s: System, id: InstanceId, room: RoomId) returns (t: System)
    requires s.NodeOf(id).recovery.Recovering? && RecoveryEnabled(s.NodeOf(id), SyncCalled(room))
    ensures var n := s.NodeOf(id);
            var request := if n.recovery.stage.LocalLoop? then SyncRequestFor(id, room, n.inst.rooms[room])
                           else EmptySyncRequest(id, room);
            var stage := n.recovery.stage.(done := n.recovery.stage.done + {room});
            && Leads(s, t) && Becomes(s, id, t.db, n.(recovery := n.recovery.(stage := stage)), t)
            && Synced(s.db, request, t.db)
  {
    hide Leads, Synced;
    var n := s.NodeOf(id);
    var request := if n.recovery.stage.LocalLoop? then SyncRequestFor(id, room, n.inst.rooms[room])
                   else EmptySyncRequest(id, room);
    var stage := n.recovery.stage.(done := n.recovery.stage.done + {room});
    var u := Do(s, id, SyncCalled(room), s.db, n.(recovery := n.recovery.(stage := stage, sync := Called(request))));
    t := SyncRuns(u, id);
    Then(s, id, u, t);
  }

  /** The local rooms, synced one after the other; `q` is the one peer held in `room`. */
  lemma {:induction false} LocalLoopRuns(s: System, id: InstanceId, room: RoomId, q: PeerId, keys: set<PeerId>,
                                         capacity: Option<int>)
    returns (t: System)
    requires var n := s.NodeOf(id);
             n.recovery.Recovering? && n.recovery.stage.LocalLoop? && n.recovery.sync.NoSync? &&
             room in n.inst.rooms && n.inst.rooms[room] == LocalRoom(map[q := None], None)
    requires s.db.Owns(id, room, q) && q in keys && Crowd(s.db, room, keys, capacity)
    ensures var n := s.NodeOf(id);
            && Leads(s, t)
            && Becomes(s, id, t.db, n.(recovery := n.recovery.(stage := EmptyLoop(n.inst.pendingEmpty, {}))), t)
            && t.db.Owns(id, room, q) && Crowd(t.db, room, keys, capacity)
    decreases s.NodeOf(id).inst.rooms.Keys - s.NodeOf(id).recovery.stage.done
  {
    hide Leads, Crowd, Synced;
    var n := s.NodeOf(id);
    if n.inst.rooms.Keys <= n.recovery.stage.done {
      t := Do(s, id, LocalLoopEnded, s.db, n.(recovery := n.recovery.(stage := EmptyLoop(n.inst.pendingEmpty, {}))));
    } else {
      var r :| r in n.inst.rooms && r !in n.recovery.stage.done;
      var u := RoomRuns(s, id, r);
      var request := SyncRequestFor(id, r, n.inst.rooms[r]);
      SyncKeepsCrowd(s.db, request, u.db, room, keys, capacity);
      SyncKeepsOwned(s.db, request, u.db, room, q);
      t := LocalLoopRuns(u, id, room, q, keys, capacity);
      Then(s, id, u, t);
    }
  }

  /** The pending rooms, `room` not among them, synced one after the other. */
  lemma {:induction false} EmptyLoopRuns(s: System, id: InstanceId, room: RoomId, keys: set<PeerId>, capacity: Option<int>)
    returns (t: System)
    requires var n := s.NodeOf(id);
             n.recovery.Recovering? && n.recovery.stage.EmptyLoop? && n.recovery.sync.NoSync? &&
             room !in n.recovery.stage.empties
    requires Crowd(s.db, room, keys, capacity)
    ensures var n := s.NodeOf(id);
            var stage := PublishLoop(n.recovery.stage.empties, |n.inst.pendingPeerLeft|, 0);
            && Leads(s, t) && Becomes(s, id, t.db, n.(recovery := n.recovery.(stage := stage)), t)
            && Crowd(t.db, room, keys, capacity)
    decreases s.NodeOf(id).recovery.stage.empties - s.NodeOf(id).recovery.stage.done
  {
    hide Leads, Crowd, Synced;
    var n := s.NodeOf(id);
    var EmptyLoop(empties, done) := n.recovery.stage;
    if empties <= done {
      var stage := PublishLoop(empties, |n.inst.pendingPeerLeft|, 0);
      t := Do(s, id, EmptyLoopEnded, s.db, n.(recovery := n.recovery.(stage := stage)));
    } else {
      var r :| r in empties && r !in done;
      var u := RoomRuns(s, id, r);
      SyncKeepsCrowd(s.db, EmptySyncRequest(id, r), u.db, room, keys, capacity);
      t := EmptyLoopRuns(u, id, room, keys, capacity);
      Then(s, id, u, t);
    }
  }

  /** The queued messages, published, and the end. */
  lemma {:induction false} PublishLoopRuns(s: System, id: InstanceId) returns (t: System)
    requires var n := s.NodeOf(id);
             n.recovery.Recovering? && n.recovery.stage.PublishLoop? &&
             n.recovery.stage.sent <= n.recovery.stage.total <= |n.inst.pendingPeerLeft|
    ensures Leads(s, t) && Becomes(s, id, s.db, t.NodeOf(id), t)
    ensures RecoveryOver(s.NodeOf(id), t.NodeOf(id), s.NodeOf(id).recovery.stage.empties)
    decreases s.NodeOf(id).recovery.stage.total - s.NodeOf(id).recovery.stage.sent
  {
    hide Leads;
    var n := s.NodeOf(id);
    var PublishLoop(empties, total, sent) := n.recovery.stage;
    if sent == total {
      t := Do(s, id, RecoveryEnded, s.db, n.(inst := FinishRecovery(n.inst, empties, total), recovery := NotRecovering,
                                             dropped := n.dropped + total));
    } else {
      var u := Do(s, id, PeerLeftReplayed, s.db,
                  n.(recovery := n.recovery.(stage := PublishLoop(empties, total, sent + 1)),
                     replays := n.replays + [Replay(n.dropped + sent, |s.published|)]));
      t := PublishLoopRuns(u, id);
      Then(s, id, u, t);
    }
  }

  /** What a recovery that has ended leaves of the node it began with. */
  ghost predicate RecoveryOver(n: Node, n': Node, empties: set<RoomId>) {
    && n'.recovery == NotRecovering
    && n'.storeReady == n.storeReady && n'.joining == n.joining && n'.leaving == n.leaving
    && n'.inst.rooms == n.inst.rooms && n'.inst.pendingEmpty == n.inst.pendingEmpty - empties && n'.inst.readyForJoins
  }

  /** A recovery past its snapshot, whatever it is at, run to its end. */
  lemma RecoveryRuns(s: System, id: InstanceId, room: RoomId, keys: set<PeerId>, capacity: Option<int>)
    returns (t: System)
    requires var n := s.NodeOf(id);
             n.AfterSnapshot() && room !in n.recovery.stage.empties && Deleting(id, n)
    requires Crowd(s.db, room, keys, capacity)
    ensures Leads(s, t) && Becomes(s, id, t.db, t.NodeOf(id), t) && Crowd(t.db, room, keys, capacity)
    ensures RecoveryOver(s.NodeOf(id), t.NodeOf(id), s.NodeOf(id).recovery.stage.empties)
  {
    hide Leads, Crowd;
    var n := s.NodeOf(id);
    if n.recovery.stage.PublishLoop? {
      t := PublishLoopRuns(s, id);
    } else {
      var u := DeletionRuns(s, id, room, keys, capacity);
      Then(s, id, s, u) by {
        LeadsSelf(s);
      }
      var v := EmptyLoopRuns(u, id, room, keys, capacity);
      Then(s, id, u, v);
      t := PublishLoopRuns(v, id);
      Then(s, id, v, t);
    }
  }

  /** From the snapshot on: a sync in progress is for a pending room, and only deletes. */
  ghost predicate Deleting(id: InstanceId, n: Node)
    requires n.AfterSnapshot()
  {
    match n.recovery.stage
    case EmptyLoop(empties, _) =>
      (match n.recovery.sync
       case NoSync => true
       case Called(request) =>
         request.room in empties && request.instance == id && request.peers == map[] && request.capacity == None
       case HashRead(_, _) => false
       case Writing(r, pipeline) => r in empties && pipeline.sets == map[] && pipeline.capacity == None)
    case PublishLoop(_, total, sent) => sent <= total <= |n.inst.pendingPeerLeft|
  }

  lemma DeletionRuns(s: System, id: InstanceId, room: RoomId, keys: set<PeerId>, capacity: Option<int>)
    returns (t: System)
    requires var n := s.NodeOf(id);
             n.AfterSnapshot() && n.recovery.stage.EmptyLoop? && room !in n.recovery.stage.empties && Deleting(id, n)
    requires Crowd(s.db, room, keys, capacity)
    ensures Leads(s, t) && Becomes(s, id, t.db, AfterSync(s.NodeOf(id)), t) && Crowd(t.db, room, keys, capacity)
  {
    hide Leads, Commands;
    var n := s.NodeOf(id);
    match n.recovery.sync
    case NoSync =>
      t := s;
      LeadsSelf(s);
    case Called(request) =>
      t := SyncRuns(s, id);
      SyncKeepsCrowd(s.db, request, t.db, room, keys, capacity);
    case Writing(r, pipeline) =>
      t := PipelineRuns(s, id);
      WrittenKeepsCrowd(s.db, id, r, pipeline, t.db, room, keys, capacity);
  }

  lemma WrittenKeepsCrowd(db: Db, id: InstanceId, r: RoomId, pipeline: Pipeline, db': Db, room: RoomId,
                          keys: set<PeerId>, capacity: Option<int>)
    requires Written(db, id, r, pipeline, db') && Crowd(db, room, keys, capacity) && r != room
    ensures Crowd(db', room, keys, capacity)
  {
    forall p | p in db'.Peers(room) ensures p in keys {
      assert db'.Entry(room, p).Some?;
      assert p in db.Peers(room) <==> db.Entry(room, p).Some?;
    }
  }

  // ---------------------------------------------------------------- a newcomer takes the peer

  /** One more peer fits. */
  predicate HasSpace(db: Db, room: RoomId) {
    db.Capacity(room).Some? ==> |db.Peers(room)| < db.Capacity(room).value
  }

  /** An instance that has not been heard of gets ready. */
  lemma Starts(s: System, id: InstanceId) returns (t: System)
    requires s.NodeOf(id) == NEW_NODE
    ensures Leads(s, t) && Becomes(s, id, s.db, t.NodeOf(id), t)
    ensures var n := t.NodeOf(id);
            n.IsReady() && n.inst.rooms == map[] && n.inst.pendingEmpty == {} && n.recovery == NotRecovering
            && n.joining == map[] && n.leaving == {}
  {
    hide Leads;
    assert NEW_NODE.inst.rooms.Keys == {};
    var n1 := NEW_NODE.(storeReady := true, recovery := Recovering(LocalLoop({}), NoSync, true, {}, {}));
    var t1 := Do(s, id, StoreReady, s.db, n1);
    var n2 := n1.(recovery := n1.recovery.(stage := EmptyLoop({}, {})));
    var t2 := Do(t1, id, LocalLoopEnded, s.db, n2);
    Then(s, id, t1, t2);
    var n3 := n2.(recovery := n2.recovery.(stage := PublishLoop({}, 0, 0)));
    var t3 := Do(t2, id, EmptyLoopEnded, s.db, n3);
    Then(s, id, t2, t3);
    t := PublishLoopRuns(t3, id);
    Then(s, id, t3, t);
  }

  /** A ready instance takes in a peer that Redis does not know. */
  lemma Joins(s: System, id: InstanceId, room: RoomId, p: PeerId) returns (t: System)
    requires s.NodeOf(id).IsReady() && p !in s.db.Peers(room) && HasSpace(s.db, room)
    requires (room, p) !in s.NodeOf(id).joining
    ensures Leads(s, t) && Becomes(s, id, s.db.HSet(room, p, StoredPeer(id, None)), t.NodeOf(id), t)
    ensures var n := s.NodeOf(id);
            t.NodeOf(id) == n.(inst := RecordJoin(n.inst, room, p, None, None))
  {
    hide Leads;
    var n := s.NodeOf(id);
    var db := s.db.HSet(room, p, StoredPeer(id, None));
    var asking := n.(joining := n.joining[(room, p) := JoinWish(None, None)]);
    var u := Do(s, id, JoinCalled(room, p, JoinWish(None, None)), db, asking);
    assert asking.joining - {(room, p)} == n.joining;
    t := Do(u, id, JoinReplied(room, p), db, n.(inst := RecordJoin(n.inst, room, p, None, None)));
    Then(s, id, u, t);
  }

  /** A newcomer holds the peer from now on; nobody else has changed. */
  lemma Newcomer(s: System, id: InstanceId, room: RoomId, p: PeerId) returns (t: System)
    requires s.NodeOf(id) == NEW_NODE && p !in s.db.Peers(room) && HasSpace(s.db, room)
    ensures Leads(s, t) && Becomes(s, id, s.db.HSet(room, p, StoredPeer(id, None)), t.NodeOf(id), t)
    ensures t.NodeOf(id).inst.Holds(room, p)
  {
    hide Leads;
    var u := Starts(s, id);
    t := Joins(u, id, room, p);
    Then(s, id, u, t);
  }

  predicate NotOverfull(db: Db, room: RoomId) {
    db.Capacity(room).Some? ==> |db.Peers(room)| <= db.Capacity(room).value
  }

  lemma CrowdHasSpace(db: Db, room: RoomId, keys: set<PeerId>, capacity: Option<int>)
    requires Crowd(db, room, keys, capacity) && (capacity.Some? ==> |keys| < capacity.value)
    ensures HasSpace(db, room)
  {
    assert |db.Peers(room).Keys| <= |keys| by {
      assert keys == db.Peers(room).Keys + (keys - db.Peers(room).Keys);
    }
  }

  lemma HDelPeers(db: Db, room: RoomId, p: PeerId)
    ensures db.HDel(room, p).Peers(room).Keys == db.Peers(room).Keys - {p}
    ensures db.HDel(room, p).Capacity(room) == db.Capacity(room)
  {
  }

  // ---------------------------------------------------------------- a sync deletes a peer it does not know

  /** A recovery at its beginning lists a room without `p`, finds `p` there as its own, and deletes it. */
  lemma SyncDeletes(s: System, id: InstanceId, room: RoomId, p: PeerId) returns (t: System)
    requires s.NodeOf(id).recovery.Recovering? && RecoveryEnabled(s.NodeOf(id), SyncCalled(room))
    requires s.db.Owns(id, room, p)
    requires s.NodeOf(id).recovery.stage.LocalLoop? ==> !s.NodeOf(id).inst.Holds(room, p)
    ensures Leads(s, t) && Becomes(s, id, s.db.HDel(room, p), t.NodeOf(id), t)
    ensures t.NodeOf(id) == s.NodeOf(id).(recovery := t.NodeOf(id).recovery)
  {
    hide Leads;
    var n := s.NodeOf(id);
    var request := if n.recovery.stage.LocalLoop? then SyncRequestFor(id, room, n.inst.rooms[room])
                   else EmptySyncRequest(id, room);
    var stage := n.recovery.stage.(done := n.recovery.stage.done + {room});
    var n1 := n.(recovery := n.recovery.(stage := stage, sync := Called(request)));
    var u := Do(s, id, SyncCalled(room), s.db, n1);
    var v := HashReplies(u, id);
    Then(s, id, u, v);
    var w := CapacityReplies(v, id, n1);
    Then(s, id, v, w);
    var pipeline := w.NodeOf(id).recovery.sync.pipeline;
    assert p in pipeline.dels;
    t := Do(w, id, DelExecuted(p), s.db.HDel(room, p),
            WithPipeline(w.NodeOf(id), pipeline.(dels := pipeline.dels - {p})));
    Then(s, id, w, t);
  }

  /** From the answer to the read, or to both reads, to the pipeline. */
  lemma CapacityReplies(s: System, id: InstanceId, n: Node) returns (t: System)
    requires n.recovery.Recovering? && n.recovery.sync.Called?
    requires var request := n.recovery.sync.request;
             var stale := Stale(request, s.db.Peers(request.room));
             s.NodeOf(id) == n.(recovery := n.recovery.(
               sync := if ReadsCapacity(request) then HashRead(request, stale)
                       else Writing(request.room, Pipeline(stale, request.peers, None))))
    ensures Leads(s, t) && Becomes(s, id, s.db, t.NodeOf(id), t)
    ensures t.NodeOf(id).recovery.Recovering?
    ensures var request, sync := n.recovery.sync.request, t.NodeOf(id).recovery.sync;
            && t.NodeOf(id) == n.(recovery := n.recovery.(sync := sync))
            && sync.Writing? && sync.room == request.room
            && sync.pipeline.dels == Stale(request, s.db.Peers(request.room))
  {
    hide Leads;
    var request := n.recovery.sync.request;
    if ReadsCapacity(request) {
      var stale := Stale(request, s.db.Peers(request.room));
      var capacity := if s.db.Capacity(request.room) == None then request.capacity else None;
      t := Do(s, id, CapacityReplied, s.db,
              n.(recovery := n.recovery.(sync := Writing(request.room, Pipeline(stale, request.peers, capacity)))));
    } else {
      t := s;
      LeadsSelf(s);
    }
  }

  // ---------------------------------------------------------------- an untame outage

  /** Readiness lost and found: the recovery begins. */
  lemma Reconnects(s: System, id: InstanceId) returns (t: System)
    requires !s.NodeOf(id).storeReady && s.NodeOf(id).recovery == NotRecovering
    ensures var n := s.NodeOf(id);
            var recovery := Recovering(LocalLoop({}), NoSync, true, n.inst.rooms.Keys, n.inst.pendingEmpty);
            && Leads(s, t)
            && Becomes(s, id, s.db, n.(storeReady := true, recovery := recovery,
                                       inst := n.inst.(readyForJoins := false)), t)
  {
    hide Leads;
    var n := s.NodeOf(id);
    var recovery := Recovering(LocalLoop({}), NoSync, true, n.inst.rooms.Keys, n.inst.pendingEmpty);
    t := Do(s, id, StoreReady, s.db,
            n.(storeReady := true, recovery := recovery, inst := n.inst.(readyForJoins := false)));
  }

  /** Where a recovery begins while a join or a leave of `p` is on its way, in a room the instance is in without it. */
  ghost predicate Doomed(s: System, id: InstanceId, room: RoomId, p: PeerId) {
    var n := s.NodeOf(id);
    && n.recovery.Recovering? && n.recovery.stage == LocalLoop({}) && n.recovery.sync.NoSync?
    && room in n.inst.rooms && !n.inst.Holds(room, p) && s.db.Owns(id, room, p)
    && ((room, p) in n.joining || (room, p) in n.leaving)
    && |s.db.Peers(room)| > 0
    && NotOverfull(s.db, room)
  }

  lemma DeletedHasSpace(db: Db, room: RoomId, p: PeerId)
    requires p in db.Peers(room)
    requires NotOverfull(db, room)
    ensures p !in db.HDel(room, p).Peers(room) && HasSpace(db.HDel(room, p), room)
  {
    HDelPeers(db, room, p);
    assert |db.HDel(room, p).Peers(room).Keys| < |db.Peers(room).Keys|;
  }

  /** The recovery deletes the peer, a newcomer takes it, and the late reply or the late script does the rest. */
  lemma DoomedEnds(s: System, id: InstanceId, room: RoomId, p: PeerId, other: InstanceId, third: InstanceId)
    returns (t: System)
    requires Doomed(s, id, room, p)
    requires other != id && third != id && other != third
    requires s.NodeOf(other) == NEW_NODE && s.NodeOf(third) == NEW_NODE
    ensures Leads(s, t) && TwoHolders(t)
  {
    hide Leads, HasSpace;
    var n := s.NodeOf(id);
    DeletedHasSpace(s.db, room, p);
    var u := SyncDeletes(s, id, room, p);
    var v := Newcomer(u, other, room, p);
    LeadsOn(s, u, v);
    if (room, p) in n.joining {
      t := LateReply(v, id, room, p);
      assert t.NodeOf(other).inst.Holds(room, p);
    } else {
      t := LateLeave(v, id, room, p, other, third);
    }
    LeadsOn(s, v, t);
  }

  lemma LateReply(s: System, id: InstanceId, room: RoomId, p: PeerId) returns (t: System)
    requires (room, p) in s.NodeOf(id).joining
    ensures Leads(s, t) && Becomes(s, id, s.db, t.NodeOf(id), t) && t.NodeOf(id).inst.Holds(room, p)
    ensures var n, wish := s.NodeOf(id), s.NodeOf(id).joining[(room, p)];
            t.NodeOf(id) == n.(joining := n.joining - {(room, p)},
                               inst := RecordJoin(n.inst, room, p, wish.protocol, wish.maxPeers))
  {
    hide Leads;
    var n := s.NodeOf(id);
    var wish := n.joining[(room, p)];
    t := Do(s, id, JoinReplied(room, p), s.db,
            n.(joining := n.joining - {(room, p)}, inst := RecordJoin(n.inst, room, p, wish.protocol, wish.maxPeers)));
  }

  /** The leave script does not ask whose entry it deletes. */
  lemma LateLeave(s: System, id: InstanceId, room: RoomId, p: PeerId, other: InstanceId, third: InstanceId)
    returns (t: System)
    requires (room, p) in s.NodeOf(id).leaving && p in s.db.Peers(room)
    requires NotOverfull(s.db, room)
    requires other != id && third != id && other != third
    requires s.NodeOf(other).inst.Holds(room, p) && s.NodeOf(third) == NEW_NODE
    ensures Leads(s, t) && TwoHolders(t)
  {
    hide Leads, HasSpace;
    var n := s.NodeOf(id);
    LeftHasSpace(s.db, room, p);
    var u := Do(s, id, LeaveExecuted(room, p), LeaveScript(s.db, room, p), n.(leaving := n.leaving - {(room, p)}));
    t := Newcomer(u, third, room, p);
    LeadsOn(s, u, t);
    assert t.NodeOf(other).inst.Holds(room, p);
  }

  lemma LeftHasSpace(db: Db, room: RoomId, p: PeerId)
    requires p in db.Peers(room)
    requires NotOverfull(db, room)
    ensures p !in LeaveScript(db, room, p).Peers(room) && HasSpace(LeaveScript(db, room, p), room)
  {
    DeletedHasSpace(db, room, p);
  }

  /** Readiness is lost while what is on its way is not isolated: some room is doomed, perhaps after one late reply. */
  lemma OutageHarms(s: System, id: InstanceId, other: InstanceId, third: InstanceId) returns (t: System)
    requires Inv(s) && Enabled(s, Event(id, StoreLost)) && !Tame(s, Event(id, StoreLost))
    requires other != id && third != id && other != third
    requires s.NodeOf(other) == NEW_NODE && s.NodeOf(third) == NEW_NODE
    requires forall room :: NotOverfull(s.db, room)
    ensures Leads(Next(s, Event(id, StoreLost)), t) && TwoHolders(t)
  {
    hide Leads, SyncSound, Progress;
    var n := s.NodeOf(id);
    assert NodeInv(s.db, id, n);
    var lost := Next(s, Event(id, StoreLost));
    var u := Reconnects(lost, id);
    if r, p :| (r, p) in n.joining && r in n.inst.rooms {
      t := DoomedEnds(u, id, r, p, other, third);
    } else if r, p :| (r, p) in n.leaving && r in n.inst.rooms {
      t := DoomedEnds(u, id, r, p, other, third);
    } else if r, p, q :| (r, p) in n.joining && (r, q) in n.joining && p != q {
      t := LateReplyDooms(u, id, r, q, p, other, third);
    } else {
      var r, p, q :| (r, p) in n.joining && (r, q) in n.leaving;
      t := LateReplyDooms(u, id, r, p, q, other, third);
    }
    LeadsOn(lost, u, t);
  }

  /** A late reply puts the instance into the room that `p` is on its way into or out of. */
  lemma LateReplyDooms(s: System, id: InstanceId, room: RoomId, q: PeerId, p: PeerId, other: InstanceId,
                       third: InstanceId)
    returns (t: System)
    requires var n := s.NodeOf(id);
             && n.recovery.Recovering? && n.recovery.stage == LocalLoop({}) && n.recovery.sync.NoSync?
             && room !in n.inst.rooms && (room, q) in n.joining && p != q
             && ((room, p) in n.joining || (room, p) in n.leaving) && s.db.Owns(id, room, p)
    requires NotOverfull(s.db, room)
    requires other != id && third != id && other != third
    requires s.NodeOf(other) == NEW_NODE && s.NodeOf(third) == NEW_NODE
    ensures Leads(s, t) && TwoHolders(t)
  {
    hide Leads;
    var u := LateReply(s, id, room, q);
    t := DoomedEnds(u, id, room, p, other, third);
    LeadsOn(s, u, t);
  }

  // ---------------------------------------------------------------- an untame leave

  lemma AfterSnapshotDeletes(db: Db, id: InstanceId, n: Node)
    requires Located(n) && SyncSound(db, id, n) && n.AfterSnapshot()
    ensures Deleting(id, n) && n.recovery.stage.empties == n.inst.pendingEmpty && !n.IsReady()
  {
  }

  lemma LastLeaves(inst: Instance, room: RoomId, peer: PeerId)
    requires room !in LocalLeave(inst.rooms, room, peer) && room in inst.rooms
    ensures RecordLeave(inst, false, room, peer) ==
            inst.(rooms := inst.rooms - {room}, pendingEmpty := inst.pendingEmpty + {room})
  {
  }

  /** The last peer leaves after the snapshot: the room is owed, but not among the rooms this recovery will forget. */
  lemma LeaveOwes(s: System, id: InstanceId, room: RoomId, peer: PeerId)
    requires Inv(s) && Enabled(s, Event(id, LeaveCalled(room, peer))) && !Tame(s, Event(id, LeaveCalled(room, peer)))
    ensures var n, n' := s.NodeOf(id), Next(s, Event(id, LeaveCalled(room, peer))).NodeOf(id);
            && n.AfterSnapshot() && n.recovery.stage.empties == n.inst.pendingEmpty && room !in n.inst.pendingEmpty
            && n' == n.(inst := n.inst.(rooms := n.inst.rooms - {room}, pendingEmpty := n.inst.pendingEmpty + {room}),
                        recovery := n.recovery.(quiet := false))
            && Deleting(id, n') && room in n.inst.rooms && Isolated(n)
    ensures var left := Next(s, Event(id, LeaveCalled(room, peer)));
            left.db == s.db && forall other | other != id :: left.NodeOf(other) == s.NodeOf(other)
  {
    var n := s.NodeOf(id);
    assert NodeInv(s.db, id, n);
    hide Progress, SyncSound, Located, Mirror, RecordLeave, LocalLeave, Isolated;
    AfterSnapshotDeletes(s.db, id, n);
    LastLeaves(n.inst, room, peer);
  }

  /** The rest of that recovery, back to readiness, with the room still owed. */
  lemma OwingRuns(s: System, id: InstanceId, room: RoomId, keys: set<PeerId>, capacity: Option<int>) returns (t: System)
    requires var n := s.NodeOf(id);
             && n.AfterSnapshot() && Deleting(id, n) && room !in n.recovery.stage.empties
             && n.inst.pendingEmpty == n.recovery.stage.empties + {room}
    requires Crowd(s.db, room, keys, capacity)
    ensures Leads(s, t) && Becomes(s, id, t.db, t.NodeOf(id), t) && Crowd(t.db, room, keys, capacity)
    ensures var n, n' := s.NodeOf(id), t.NodeOf(id);
            && n'.IsReady() && n'.recovery == NotRecovering && n'.inst.rooms == n.inst.rooms
            && n'.inst.pendingEmpty == {room} && n'.joining == n.joining && n'.leaving == n.leaving
  {
    hide Leads, Crowd;
    var n := s.NodeOf(id);
    if n.storeReady {
      t := RecoveryRuns(s, id, room, keys, capacity);
    } else {
      var u := Do(s, id, StoreReady, s.db, n.(storeReady := true));
      t := RecoveryRuns(u, id, room, keys, capacity);
      Then(s, id, u, t);
    }
    assert n.recovery.stage.empties + {room} - n.recovery.stage.empties == {room};
  }

  /** With the room owed although it is ready, the instance takes in `q` there and loses its connection to Redis. */
  lemma OwingRejoins(s: System, id: InstanceId, room: RoomId, q: PeerId, keys: set<PeerId>, capacity: Option<int>)
    returns (t: System)
    requires var n := s.NodeOf(id);
             && n.IsReady() && n.recovery == NotRecovering && n.inst.pendingEmpty == {room} && room !in n.inst.rooms
             && (room, q) !in n.joining
    requires Isolated(s.NodeOf(id).(inst := RecordJoin(s.NodeOf(id).inst, room, q, None, None)))
    requires Crowd(s.db, room, keys, capacity) && q !in keys && (capacity.Some? ==> |keys| < capacity.value)
    ensures Leads(s, t) && Becomes(s, id, t.db, t.NodeOf(id), t)
    ensures t.db.Owns(id, room, q) && Crowd(t.db, room, keys + {q}, capacity)
    ensures var n := t.NodeOf(id);
            && n.recovery.Recovering? && n.recovery.stage == LocalLoop({}) && n.recovery.sync.NoSync?
            && room in n.inst.rooms && n.inst.rooms[room] == LocalRoom(map[q := None], None)
            && n.inst.pendingEmpty == {room}
  {
    hide Leads, Isolated, HasSpace;
    CrowdHasSpace(s.db, room, keys, capacity);
    var u := Joins(s, id, room, q);
    var n := u.NodeOf(id);
    var v := Do(u, id, StoreLost, u.db, n.(storeReady := false, inst := n.inst.(readyForJoins := false)));
    Then(s, id, u, v);
    t := Reconnects(v, id);
    Then(s, id, v, t);
  }

  lemma IsolatedAgain(n: Node, room: RoomId, n': Node, q: PeerId)
    requires Isolated(n) && room in n.inst.rooms
    requires n'.joining == n.joining && n'.leaving == n.leaving && n'.inst.rooms == n.inst.rooms - {room}
    ensures Isolated(n'.(inst := RecordJoin(n'.inst, room, q, None, None))) && (room, q) !in n'.joining
  {
    assert RecordJoin(n'.inst, room, q, None, None).rooms.Keys == n.inst.rooms.Keys;
  }

  /** The next recovery writes `q`'s entry, and then deletes it on behalf of the debt; a newcomer takes it. */
  lemma OwedRoomErased(s: System, id: InstanceId, room: RoomId, q: PeerId, keys: set<PeerId>, capacity: Option<int>,
                       other: InstanceId)
    returns (t: System)
    requires var n := s.NodeOf(id);
             && n.recovery.Recovering? && n.recovery.stage == LocalLoop({}) && n.recovery.sync.NoSync?
             && room in n.inst.rooms && n.inst.rooms[room] == LocalRoom(map[q := None], None)
             && n.inst.pendingEmpty == {room}
    requires s.db.Owns(id, room, q) && Crowd(s.db, room, keys + {q}, capacity)
    requires capacity.Some? ==> |keys| < capacity.value
    requires other != id && s.NodeOf(other) == NEW_NODE
    ensures Leads(s, t) && TwoHolders(t)
  {
    hide Leads, Crowd, HasSpace;
    var w := LocalLoopRuns(s, id, room, q, keys + {q}, capacity);
    var x := SyncDeletes(w, id, room, q);
    LeadsOn(s, w, x);
    DeletedCrowd(w.db, room, q, keys, capacity);
    t := Newcomer(x, other, room, q);
    LeadsOn(s, x, t);
    assert t.NodeOf(id).inst.Holds(room, q) && t.NodeOf(other).inst.Holds(room, q);
  }

  lemma WholeCrowd(db: Db, room: RoomId)
    ensures Crowd(db, room, db.Peers(room).Keys, db.Capacity(room))
    ensures HasSpace(db, room) && db.Capacity(room).Some? ==> |db.Peers(room).Keys| < db.Capacity(room).value
  {
  }

  lemma LeaveHarms(s: System, id: InstanceId, room: RoomId, peer: PeerId, q: PeerId, other: InstanceId)
    returns (t: System)
    requires Inv(s) && Enabled(s, Event(id, LeaveCalled(room, peer))) && !Tame(s, Event(id, LeaveCalled(room, peer)))
    requires other != id && s.NodeOf(other) == NEW_NODE && q !in s.db.Peers(room) && HasSpace(s.db, room)
    ensures Leads(Next(s, Event(id, LeaveCalled(room, peer))), t) && TwoHolders(t)
  {
    hide Leads, Crowd, Isolated, Deleting, Inv, Enabled, Tame, Next, TwoHolders, RecordJoin, HasSpace;
    var keys, capacity := s.db.Peers(room).Keys, s.db.Capacity(room);
    var left, n := Next(s, Event(id, LeaveCalled(room, peer))), s.NodeOf(id);
    LeaveOwes(s, id, room, peer);
    WholeCrowd(s.db, room);
    var u := OwingRuns(left, id, room, keys, capacity);
    IsolatedAgain(n, room, u.NodeOf(id), q);
    var v := OwingRejoins(u, id, room, q, keys, capacity);
    t := OwedRoomErased(v, id, room, q, keys, capacity, other);
    LeadsOn(u, v, t);
    LeadsOn(left, u, t);
  }

  lemma DeletedCrowd(db: Db, room: RoomId, q: PeerId, keys: set<PeerId>, capacity: Option<int>)
    requires Crowd(db, room, keys + {q}, capacity) && (capacity.Some? ==> |keys| < capacity.value)
    ensures q !in db.HDel(room, q).Peers(room) && HasSpace(db.HDel(room, q), room)
  {
    HDelPeers(db, room, q);
    CrowdHasSpace(db.HDel(room, q), room, keys, capacity);
  }

  // ---------------------------------------------------------------- the two assumptions, exactly

  /**
   A step respects the timing assumptions if and only if no tame continuation of it makes two instances hold one peer,
   given what any continuation needs: a peer id nobody uses, space in the rooms, and two instances not started yet.
   */
  lemma TameExactly(s: System, e: Event, q: PeerId, other: InstanceId, third: InstanceId)
    requires Inv(s) && Enabled(s, e)
    requires other != e.id && third != e.id && other != third
    requires s.NodeOf(other) == NEW_NODE && s.NodeOf(third) == NEW_NODE
    requires forall room :: q !in s.db.Peers(room) && HasSpace(s.db, room)
    ensures Tame(s, e) <==> forall t | Leads(Next(s, e), t) :: !TwoHolders(t)
  {
    hide Inv, Enabled, Next, TwoHolders;
    if Tame(s, e) {
      StepInv(s, e);
      forall t | Leads(Next(s, e), t) ensures !TwoHolders(t) {
        var events :| TameTo(Next(s, e), events, t);
        TameToInv(Next(s, e), events, t);
        InvOneHolder(t);
      }
    } else {
      match e.action
      case StoreLost => var _ := OutageHarms(s, e.id, other, third);
      case LeaveCalled(room, peer) => var _ := LeaveHarms(s, e.id, room, peer, q, other);
    }
  }

  // ---------------------------------------------------------------- both are broken by runs from the start

  /** From nothing, an instance comes to hold `q` in an otherwise empty room. */
  lemma FirstPeer(id: InstanceId, room: RoomId, q: PeerId) returns (t: System)
    ensures Leads(INITIAL, t) && Becomes(INITIAL, id, EMPTY_DB.HSet(room, q, StoredPeer(id, None)), t.NodeOf(id), t)
    ensures var n := t.NodeOf(id);
            && n.IsReady() && n.recovery == NotRecovering && n.joining == map[] && n.leaving == {}
            && n.inst.pendingEmpty == {} && room in n.inst.rooms && n.inst.rooms[room] == LocalRoom(map[q := None], None)
  {
    hide Leads;
    var u := Starts(INITIAL, id);
    t := Joins(u, id, room, q);
    Then(INITIAL, id, u, t);
  }

  /** A tame run leads to an outage that is not. */
  lemma UntameOutageReached(id: InstanceId, room: RoomId, q: PeerId, p: PeerId) returns (t: System)
    requires p != q
    ensures Leads(INITIAL, t) && Enabled(t, Event(id, StoreLost)) && !Tame(t, Event(id, StoreLost))
    ensures Becomes(INITIAL, id, t.db, t.NodeOf(id), t)
    ensures forall r :: NotOverfull(t.db, r)
  {
    hide Leads;
    var u := FirstPeer(id, room, q);
    var n, db := u.NodeOf(id), u.db.HSet(room, p, StoredPeer(id, None));
    var asking := n.(joining := n.joining[(room, p) := JoinWish(None, None)]);
    t := Do(u, id, JoinCalled(room, p, JoinWish(None, None)), db, asking);
    Then(INITIAL, id, u, t);
    assert (room, p) in t.NodeOf(id).joining && room in t.NodeOf(id).inst.rooms;
  }

  /** A tame run leads to a leave that is not. */
  lemma UntameLeaveReached(id: InstanceId, room: RoomId, q: PeerId) returns (t: System)
    ensures Leads(INITIAL, t)
    ensures Enabled(t, Event(id, LeaveCalled(room, q))) && !Tame(t, Event(id, LeaveCalled(room, q)))
    ensures Becomes(INITIAL, id, t.db, t.NodeOf(id), t)
    ensures Crowd(t.db, room, {q}, None)
  {
    hide Leads, Crowd;
    var u := FirstPeer(id, room, q);
    var n := u.NodeOf(id);
    var v := Do(u, id, StoreLost, u.db, n.(storeReady := false, inst := n.inst.(readyForJoins := false)));
    Then(INITIAL, id, u, v);
    var w := Reconnects(v, id);
    Then(INITIAL, id, v, w);
    assert Crowd(w.db, room, {q}, None) by {
      FirstCrowd(id, room, q);
    }
    t := LocalLoopRuns(w, id, room, q, {q}, None);
    Then(INITIAL, id, w, t);
  }

  lemma FirstCrowd(id: InstanceId, room: RoomId, q: PeerId)
    ensures Crowd(EMPTY_DB.HSet(room, q, StoredPeer(id, None)), room, {q}, None)
  {
  }

  lemma InitialInv()
    ensures Inv(INITIAL)
  {
    assert forall id :: NodeInv(EMPTY_DB, id, NEW_NODE);
  }

  /** Neither assumption can be dropped: with one step that breaks it, a run from nothing has two holders. */
  lemma BothAreNeeded(id: InstanceId, other: InstanceId, third: InstanceId, room: RoomId, q: PeerId, p: PeerId)
    returns (outage: System, afterOutage: System, leave: System, afterLeave: System)
    requires id != other && id != third && other != third && p != q
    ensures Leads(INITIAL, outage) && Enabled(outage, Event(id, StoreLost))
    ensures Leads(Next(outage, Event(id, StoreLost)), afterOutage) && TwoHolders(afterOutage)
    ensures Leads(INITIAL, leave) && Enabled(leave, Event(id, LeaveCalled(room, q)))
    ensures Leads(Next(leave, Event(id, LeaveCalled(room, q))), afterLeave) && TwoHolders(afterLeave)
  {
    hide Leads, Inv, Enabled, Tame, Next, TwoHolders, Crowd, HasSpace;
    InitialInv();
    outage := UntameOutageReached(id, room, q, p);
    InvAfter(INITIAL, outage);
    afterOutage := OutageHarms(outage, id, other, third);
    leave := UntameLeaveReached(id, room, q);
    InvAfter(INITIAL, leave);
    CrowdOfOne(leave.db, room, q, p);
    afterLeave := LeaveHarms(leave, id, room, q, p, other);
  }

  lemma InvAfter(s: System, t: System)
    requires Inv(s) && Leads(s, t)
    ensures Inv(t)
  {
    hide Inv, TameTo;
    var events :| TameTo(s, events, t);
    TameToInv(s, events, t);
  }

  lemma CrowdOfOne(db: Db, room: RoomId, q: PeerId, p: PeerId)
    requires Crowd(db, room, {q}, None) && p != q
    ensures p !in db.Peers(room) && HasSpace(db, room)
  {
  }
}
