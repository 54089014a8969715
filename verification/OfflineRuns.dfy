/**
 A room over whole runs. Events are emitted, and disconnects begin, at any point between the synchronous steps of the
 other handlers: from a listener called inside a replay, an activation or a drop as much as from the outside.
 */
module OfflineRuns {
  import opened OfflineQueue

  /** The handler that is running; the replay, an activation and a drop call listeners while they do. */
  datatype Running = Idle | Replaying | Activating | Dropping

  /**
   `closing` counts the manual disconnects that have begun and not ended. `emitted` counts the events emitted since the
   room first had a transport, which are numbered in that order, and `overflows` those of them that were to be queued
   and found 100 queued events.
   */
  datatype System = System(room: Room, running: Running, closing: nat, emitted: nat, overflows: nat)

  const START := System(NEW_ROOM, Idle, 0, 0, 0)

  /** `Nudged` is a signal that reminds the room of its queue: a welcome, or the state of another peer. */
  datatype Action =
    | EventEmitted
    | StateCommitted(mutation: nat)
    | TimerFired
    | EntryReplayed
    | ReplayEnded
    | ActivateBegun
    | ActivateEnded
    | DropBegun
    | DropEnded
    | DisconnectBegun
    | DisconnectEnded
    | ConnectFailed
    | Nudged

  predicate Enabled(s: System, a: Action) {
    match a
    case EventEmitted => true
    case StateCommitted(_) => true
    case TimerFired => s.running.Idle? && s.room.timer
    case EntryReplayed => s.running.Replaying? && s.room.queue != []
    case ReplayEnded => s.running.Replaying? && s.room.queue == []
    case ActivateBegun => s.running.Idle?
    case ActivateEnded => s.running.Activating?
    case DropBegun => s.running.Idle?
    case DropEnded => s.running.Dropping?
    case DisconnectBegun => true
    case DisconnectEnded => s.running.Idle? && s.closing > 0
    case ConnectFailed => s.running.Idle?
    case Nudged => s.running.Idle?
  }

  function TimerExpires(s: System): System {
    var r := s.room.(timer := false);
    if CanReplay(r) then s.(room := r.(replaying := true), running := Replaying) else s.(room := r)
  }

  function EmitEvent(s: System): System {
    if !s.room.connectedBefore then s.(room := Emit(s.room, 0))
    else s.(room := Emit(s.room, s.emitted), emitted := s.emitted + 1,
            overflows := if ShouldQueue(s.room) && CountEvents(s.room.queue) == EVENT_LIMIT then s.overflows + 1
                         else s.overflows)
  }

  function Step(s: System, a: Action): System
    requires Enabled(s, a)
  {
    match a
    case EventEmitted => EmitEvent(s)
    case StateCommitted(mutation) => s.(room := Commit(s.room, mutation))
    case TimerFired => TimerExpires(s)
    case EntryReplayed => s.(room := ReplayOne(s.room))
    case ReplayEnded => s.(room := EndReplay(s.room), running := Idle)
    case ActivateBegun => s.(room := BeginActivate(s.room), running := Activating)
    case ActivateEnded => s.(room := EndActivate(s.room), running := Idle)
    case DropBegun => s.(room := BeginDrop(s.room), running := Dropping)
    case DropEnded => s.(room := LoseTransport(s.room), running := Idle)
    case DisconnectBegun => s.(room := BeginDisconnect(s.room), closing := s.closing + 1)
    case DisconnectEnded => s.(room := LoseTransport(s.room), closing := s.closing - 1)
    case ConnectFailed => s.(room := LoseTransport(s.room))
    case Nudged => s.(room := Schedule(s.room))
  }

  ghost predicate Run(states: seq<System>, actions: seq<Action>) {
    && |states| == |actions| + 1
    && states[0] == START
    && forall i | 0 <= i < |actions| :: Enabled(states[i], actions[i]) && states[i + 1] == Step(states[i], actions[i])
  }

  // ---------------------------------------------------------------- what every state satisfies

  /** The events handed to a transport, then the queued ones. */
  function Kept(r: Room): seq<EventId> {
    r.sent + EventsOf(r.queue)
  }

  ghost predicate Increasing(ids: seq<EventId>, bound: nat) {
    && (forall i | 0 <= i < |ids| :: ids[i] < bound)
    && (forall i, j | 0 <= i < j < |ids| :: ids[i] < ids[j])
  }

  ghost predicate Events(s: System) {
    && Increasing(Kept(s.room), s.emitted)
    && |Kept(s.room)| + s.overflows == s.emitted
    && CountEvents(s.room.queue) <= EVENT_LIMIT
  }

  /** No queued key was dispatched before, and none is queued twice. */
  ghost predicate KeysFresh(queue: seq<Entry>, used: set<Key>, next: Key) {
    queue == [] ||
    match queue[0]
    case StateEntry(_) => KeysFresh(queue[1..], used, next)
    case EventEntry(_, key) => key !in used && key < next && KeysFresh(queue[1..], used + {key}, next)
  }

  ghost predicate Keys(r: Room) {
    KeysFresh(r.queue, r.dispatched, r.nextKey) && forall k | k in r.dispatched :: k < r.nextKey
  }

  /** Nothing is queued before the first transport; the flags say which handler runs; work for a live room is timed. */
  ghost predicate Flags(s: System) {
    var r := s.room;
    && (r.replaying <==> s.running.Replaying?)
    && (s.running.Replaying? ==> r.live && !r.timer)
    && (s.running.Activating? ==> r.live)
    && (r.live ==> r.connectedBefore)
    && (!r.connectedBefore ==> r.queue == [] && !r.timer)
    && (s.running.Dropping? && s.closing == 0 ==> r.window)
    && (s.running.Idle? && s.closing == 0 && r.live && (r.queue != [] || r.window) ==> r.timer)
  }

  ghost predicate Paired(notices: seq<Notice>, open: bool) {
    && (forall i | 0 <= i < |notices| && notices[i].Online? :: i > 0 && notices[i - 1].Offline?)
    && (forall i | 0 < i < |notices| && notices[i].Offline? :: !notices[i - 1].Offline?)
    && (open <==> |notices| > 0 && notices[|notices| - 1].Offline?)
  }

  ghost predicate Inv(s: System) {
    Events(s) && Keys(s.room) && Flags(s) && Paired(s.room.notices, s.room.window)
  }

  // ---------------------------------------------------------------- the keys

  lemma {:induction false} FewerUsed(queue: seq<Entry>, used: set<Key>, fewer: set<Key>, next: Key)
    requires KeysFresh(queue, used, next) && fewer <= used
    ensures KeysFresh(queue, fewer, next)
  {
    if queue != [] {
      match queue[0]
      case StateEntry(_) => FewerUsed(queue[1..], used, fewer, next);
      case EventEntry(_, key) => FewerUsed(queue[1..], used + {key}, fewer + {key}, next);
    }
  }

  lemma {:induction false} AppendKeepsKeysFresh(queue: seq<Entry>, entry: Entry, used: set<Key>, next: Key)
    requires KeysFresh(queue, used, next) && forall k | k in used :: k < next
    requires entry.EventEntry? ==> entry.key == next
    ensures KeysFresh(queue + [entry], used, next + 1)
  {
    if queue == [] {
      assert queue + [entry] == [entry] && [entry][1..] == [];
    } else {
      assert (queue + [entry])[0] == queue[0] && (queue + [entry])[1..] == queue[1..] + [entry];
      match queue[0]
      case StateEntry(_) => AppendKeepsKeysFresh(queue[1..], entry, used, next);
      case EventEntry(_, key) => AppendKeepsKeysFresh(queue[1..], entry, used + {key}, next);
    }
  }

  lemma {:induction false} DropKeepsKeysFresh(queue: seq<Entry>, n: nat, used: set<Key>, next: Key)
    requires KeysFresh(queue, used, next)
    ensures KeysFresh(DropEvents(queue, n), used, next)
  {
    if queue != [] {
      match queue[0]
      case StateEntry(_) =>
        DropKeepsKeysFresh(queue[1..], n, used, next);
        assert ([queue[0]] + DropEvents(queue[1..], n))[1..] == DropEvents(queue[1..], n);
      case EventEntry(_, key) =>
        if n > 0 {
          FewerUsed(queue[1..], used + {key}, used, next);
          DropKeepsKeysFresh(queue[1..], n - 1, used, next);
        } else {
          DropKeepsKeysFresh(queue[1..], n, used + {key}, next);
          assert ([queue[0]] + DropEvents(queue[1..], n))[1..] == DropEvents(queue[1..], n);
        }
    }
  }

  /** A committed state change uses up no key. */
  lemma {:induction false} AppendStateKeepsKeysFresh(queue: seq<Entry>, entry: Entry, used: set<Key>, next: Key)
    requires KeysFresh(queue, used, next) && entry.StateEntry?
    ensures KeysFresh(queue + [entry], used, next)
  {
    if queue == [] {
      assert queue + [entry] == [entry] && [entry][1..] == [];
    } else {
      assert (queue + [entry])[0] == queue[0] && (queue + [entry])[1..] == queue[1..] + [entry];
      match queue[0]
      case StateEntry(_) => AppendStateKeepsKeysFresh(queue[1..], entry, used, next);
      case EventEntry(_, key) => AppendStateKeepsKeysFresh(queue[1..], entry, used + {key}, next);
    }
  }

  // ---------------------------------------------------------------- one step at a time

  lemma EmitInv(s: System)
    requires Inv(s)
    ensures Inv(EmitEvent(s))
  {
    var r, t := s.room, EmitEvent(s);
    if ShouldQueue(r) {
      EmitQueuedInv(s);
    } else if r.live {
      hide CompleteWindow, Schedule;
      assert EventsOf(r.queue) == [];
      assert Kept(t.room) == Kept(r) + [s.emitted];
    }
  }

  lemma EmitQueuedInv(s: System)
    requires Inv(s) && ShouldQueue(s.room)
    ensures Inv(EmitEvent(s))
  {
    hide AppendEntry, DropEvents, KeysFresh, Increasing, Schedule, EventsOf;
    var r, t := s.room, EmitEvent(s);
    var entry := EventEntry(s.emitted, r.nextKey);
    var queued := r.(queue := AppendEntry(r.queue, entry), nextKey := r.nextKey + 1);
    AppendEntryKeeps(r.queue, entry);
    CountIsLength(r.queue);
    CountIsLength(queued.queue);
    assert EventsOf(queued.queue) != [];
    QueuedNotEmpty(r.queue, entry);
    QueuedKeys(r, entry);
    QueuedEventInv(s, entry);
    ScheduleKeeps(queued);
    hide CountEvents;
    assert t.room == Schedule(queued);
  }

  /** A queued event has a key of its own. */
  lemma QueuedKeys(r: Room, entry: Entry)
    requires Keys(r) && entry.EventEntry? && entry.key == r.nextKey
    ensures Keys(r.(queue := AppendEntry(r.queue, entry), nextKey := r.nextKey + 1))
  {
    AppendKeepsKeysFresh(r.queue, entry, r.dispatched, r.nextKey);
    var all := r.queue + [entry];
    DropKeepsKeysFresh(all, if CountEvents(all) > EVENT_LIMIT then CountEvents(all) - EVENT_LIMIT else 0,
                       r.dispatched, r.nextKey + 1);
  }

  lemma QueuedEventInv(s: System, entry: Entry)
    requires Events(s) && entry.EventEntry? && entry.event == s.emitted
    ensures var queue := AppendEntry(s.room.queue, entry);
            && Increasing(s.room.sent + EventsOf(queue), s.emitted + 1)
            && |s.room.sent + EventsOf(queue)| + s.overflows
               == s.emitted + (if CountEvents(s.room.queue) == EVENT_LIMIT then 0 else 1)
  {
    var r := s.room;
    AppendEntryKeeps(r.queue, entry);
    CountIsLength(r.queue);
    var all := EventsOf(r.queue) + [s.emitted];
    assert r.sent + all == Kept(r) + [s.emitted];
    assert Increasing(r.sent + all, s.emitted + 1);
    var queue := AppendEntry(r.queue, entry);
    if |all| > EVENT_LIMIT {
      WithoutOne(r.sent, all, s.emitted + 1);
    }
  }

  lemma WithoutOne(front: seq<EventId>, back: seq<EventId>, bound: nat)
    requires back != [] && Increasing(front + back, bound)
    ensures Increasing(front + back[1..], bound)
  {
    var all, fewer := front + back, front + back[1..];
    forall i | 0 <= i < |fewer|
      ensures fewer[i] == all[if i < |front| then i else i + 1]
    {
    }
    forall i, j | 0 <= i < j < |fewer|
      ensures fewer[i] < fewer[j]
    {
      assert fewer[i] == all[if i < |front| then i else i + 1];
      assert fewer[j] == all[if j < |front| then j else j + 1];
    }
  }

  lemma CommitInv(s: System, mutation: nat)
    requires Inv(s)
    ensures Inv(s.(room := Commit(s.room, mutation)))
  {
    var r := s.room;
    if ShouldQueue(r) {
      var entry := StateEntry(mutation);
      AppendEntryKeeps(r.queue, entry);
      CountIsLength(r.queue);
      CountIsLength(AppendEntry(r.queue, entry));
      AppendStateKeepsKeysFresh(r.queue, entry, r.dispatched, r.nextKey);
      var all := r.queue + [entry];
      DropKeepsKeysFresh(all, if CountEvents(all) > EVENT_LIMIT then CountEvents(all) - EVENT_LIMIT else 0,
                         r.dispatched, r.nextKey);
      assert EventsOf(AppendEntry(r.queue, entry)) == EventsOf(r.queue);
      assert StatesOf(AppendEntry(r.queue, entry)) != [];
    }
  }

  /** A replayed entry is never skipped: an event moves from the front of the queue to the end of what was sent. */
  lemma ReplayOneKeeps(r: Room)
    requires r.live && r.queue != [] && Keys(r)
    ensures var t := ReplayOne(r);
            && Kept(t) == Kept(r)
            && t == r.(queue := r.queue[1..], sent := t.sent, dispatched := t.dispatched, replayed := r.replayed + [r.queue[0]])
            && |t.sent| == |r.sent| + (if r.queue[0].EventEntry? then 1 else 0)
            && Keys(t)
  {
    var first, rest := r.queue[0], r.queue[1..];
    assert r.queue == [first] + rest;
    EventsOfCons(first, rest);
    hide EventsOf;
    var so := EventsOf(rest);
    match first
    case StateEntry(_) => assert [] + so == so;
    case EventEntry(event, _) => assert r.sent + [event] + so == r.sent + ([event] + so);
  }

  lemma ReplayInv(s: System)
    requires Inv(s) && Enabled(s, EntryReplayed)
    ensures Inv(Step(s, EntryReplayed))
  {
    ReplayOneKeeps(s.room);
  }

  lemma CompleteWindowKeeps(r: Room)
    requires Paired(r.notices, r.window)
    ensures var t := CompleteWindow(r);
            && t == r.(window := t.window, notices := t.notices)
            && Paired(t.notices, t.window)
            && (t.window ==> r.window && !(r.live && r.queue == [] && !r.timer && !r.replaying))
  {
  }

  lemma ScheduleKeeps(r: Room)
    requires Paired(r.notices, r.window)
    ensures var t := Schedule(r);
            && t == r.(timer := t.timer, requested := t.requested, window := t.window, notices := t.notices)
            && Paired(t.notices, t.window)
            && (if r.queue == [] then t.window ==> r.window else t.window == r.window)
            && (r.timer ==> t.timer)
            && (t.timer && !r.timer ==> r.live && r.queue != [] && !r.replaying)
            && (r.live && r.queue != [] && !r.replaying ==> t.timer)
  {
    CompleteWindowKeeps(r);
  }

  lemma EndReplayInv(s: System)
    requires Inv(s) && Enabled(s, ReplayEnded)
    ensures Inv(Step(s, ReplayEnded))
  {
    var done := s.room.(replaying := false, requested := false);
    CompleteWindowKeeps(done);
  }

  lemma EndActivateInv(s: System)
    requires Inv(s) && Enabled(s, ActivateEnded)
    ensures Inv(Step(s, ActivateEnded))
  {
    ScheduleKeeps(s.room);
    CompleteWindowKeeps(Schedule(s.room));
  }

  lemma DisconnectInv(s: System)
    requires Inv(s)
    ensures Inv(Step(s, DisconnectBegun))
  {
    var r := s.room;
    FewerUsed(r.queue, r.dispatched, {}, r.nextKey);
  }

  lemma NudgeInv(s: System)
    requires Inv(s) && s.running.Idle?
    ensures Inv(s.(room := Schedule(s.room)))
  {
    ScheduleKeeps(s.room);
    CompleteWindowKeeps(s.room);
  }

  lemma StepInv(s: System, a: Action)
    requires Inv(s) && Enabled(s, a)
    ensures Inv(Step(s, a))
  {
    hide Emit, Commit, ReplayOne, EndReplay, EndActivate, CompleteWindow, Schedule, KeysFresh, EventsOf, CountEvents;
    match a
    case EventEmitted => EmitInv(s);
    case StateCommitted(mutation) => CommitInv(s, mutation);
    case EntryReplayed => ReplayInv(s);
    case ReplayEnded => EndReplayInv(s);
    case ActivateEnded => EndActivateInv(s);
    case DisconnectBegun => DisconnectInv(s);
    case Nudged => NudgeInv(s);
    case _ =>
  }

  lemma {:induction false} RunInv(states: seq<System>, actions: seq<Action>, i: nat)
    requires Run(states, actions) && i < |states|
    ensures Inv(states[i])
  {
    if i > 0 {
      RunInv(states, actions, i - 1);
      StepInv(states[i - 1], actions[i - 1]);
    }
  }

  // ---------------------------------------------------------------- the promises

  /** From the first transport on, each event is sent or queued once, in order, unless the queue overflowed. */
  lemma EventsExactlyOnce(states: seq<System>, actions: seq<Action>, i: nat)
    requires Run(states, actions) && i < |states|
    ensures var s := states[i];
            && Increasing(Kept(s.room), s.emitted)
            && |Kept(s.room)| + s.overflows == s.emitted
            && (s.overflows == 0 <==> Kept(s.room) == seq(s.emitted, k requires 0 <= k => k))
  {
    RunInv(states, actions, i);
    var s := states[i];
    if s.overflows == 0 {
      FullIncreasing(Kept(s.room), s.emitted);
    }
  }

  /** An entry of the work that has to wait when the action comes, by the state it comes in. */
  ghost function Waits(s: System, a: Action): seq<Entry> {
    var r := s.room;
    if (r.live || !r.connectedBefore) && r.queue == [] && !r.timer && !r.replaying then []
    else
      match a
      case EventEmitted => [EventEntry(s.emitted, r.nextKey)]
      case StateCommitted(mutation) => [StateEntry(mutation)]
      case _ => []
  }

  /** All the work that had to wait, in order. */
  ghost function Waited(states: seq<System>, actions: seq<Action>, i: nat): seq<Entry>
    requires |states| == |actions| + 1 && i < |states|
  {
    if i == 0 then [] else Waited(states, actions, i - 1) + Waits(states[i - 1], actions[i - 1])
  }

  /** What replays took, then what is queued. */
  function Handled(r: Room): seq<Entry> {
    r.replayed + r.queue
  }

  ghost predicate Accounts(r: Room, waited: seq<Entry>, overflows: nat) {
    && StatesOf(Handled(r)) == StatesOf(waited)
    && |EventsOf(Handled(r))| + overflows == |EventsOf(waited)|
    && (overflows == 0 ==> Handled(r) == waited)
  }

  lemma StepAccounts(s: System, a: Action, waited: seq<Entry>)
    requires Inv(s) && Enabled(s, a) && Accounts(s.room, waited, s.overflows)
    ensures Accounts(Step(s, a).room, waited + Waits(s, a), Step(s, a).overflows)
  {
    hide Accounts, Emit, Commit, CompleteWindow, Schedule, EventsOf, StatesOf, Keys, Paired, Events;
    if a.EventEmitted? {
      EmitAccounts(s, waited);
    } else if a.StateCommitted? {
      CommitAccounts(s, a.mutation, waited);
    } else {
      assert waited + [] == waited;
      SameHandled(s, a);
      SameAccounts(s.room, Step(s, a).room, waited, s.overflows);
    }
  }

  lemma SameHandled(s: System, a: Action)
    requires Enabled(s, a) && !a.EventEmitted? && !a.StateCommitted?
    ensures Handled(Step(s, a).room) == Handled(s.room) && Step(s, a).overflows == s.overflows
  {
    hide ReplayOne;
    if a.EntryReplayed? {
      ReplayOneTakes(s.room);
      assert s.room.replayed + [s.room.queue[0]] + s.room.queue[1..] == s.room.replayed + s.room.queue;
    }
  }

  lemma SameAccounts(r: Room, t: Room, waited: seq<Entry>, overflows: nat)
    requires Accounts(r, waited, overflows) && Handled(t) == Handled(r)
    ensures Accounts(t, waited, overflows)
  {
  }

  lemma CommitAccounts(s: System, mutation: nat, waited: seq<Entry>)
    requires Inv(s) && Accounts(s.room, waited, s.overflows)
    ensures Accounts(Commit(s.room, mutation), waited + Waits(s, StateCommitted(mutation)), s.overflows)
  {
    hide Accounts;
    var r, t, entry := s.room, Commit(s.room, mutation), StateEntry(mutation);
    if Waits(s, StateCommitted(mutation)) == [] {
      assert waited + [] == waited;
      SameAccounts(r, t, waited, s.overflows);
    } else {
      AppendsBehind(r.queue, entry);
      assert Handled(t) == Handled(r) + [entry];
      OneMoreAccounts(r, t, waited, entry, s.overflows);
    }
  }

  lemma OneMoreAccounts(r: Room, t: Room, waited: seq<Entry>, entry: Entry, overflows: nat)
    requires Accounts(r, waited, overflows) && Handled(t) == Handled(r) + [entry]
    ensures Accounts(t, waited + [entry], overflows)
  {
    EventsOfConcat(Handled(r), [entry]);
    EventsOfConcat(waited, [entry]);
  }

  lemma EmitAccounts(s: System, waited: seq<Entry>)
    requires Inv(s) && Accounts(s.room, waited, s.overflows)
    ensures Accounts(EmitEvent(s).room, waited + Waits(s, EventEmitted), EmitEvent(s).overflows)
  {
    hide Accounts;
    var r, t, entry := s.room, EmitEvent(s).room, EventEntry(s.emitted, s.room.nextKey);
    if Waits(s, EventEmitted) == [] {
      assert waited + [] == waited;
      SameAccounts(r, t, waited, s.overflows);
    } else {
      AppendsBehind(r.queue, entry);
      if CountEvents(r.queue) == EVENT_LIMIT {
        OverflowAccounts(r, t, waited, entry, s.overflows);
      } else {
        assert Handled(t) == Handled(r) + [entry];
        OneMoreAccounts(r, t, waited, entry, s.overflows);
      }
    }
  }

  lemma OverflowAccounts(r: Room, t: Room, waited: seq<Entry>, entry: Entry, overflows: nat)
    requires Accounts(r, waited, overflows) && entry.EventEntry? && CountEvents(r.queue) == EVENT_LIMIT
    requires t.replayed == r.replayed && t.queue == AppendEntry(r.queue, entry)
    ensures Accounts(t, waited + [entry], overflows + 1)
  {
    hide AppendEntry, CountEvents;
    AppendEntryKeeps(r.queue, entry);
    CountIsLength(r.queue);
    EventsOfConcat(r.replayed, r.queue);
    EventsOfConcat(t.replayed, t.queue);
    EventsOfConcat(waited, [entry]);
    EventsOfCons(entry, []);
    assert [entry] + [] == [entry];
  }

  /**
   In every run, the state changes that replays took and then those still queued are all that had to wait, in order.
   With events counted in, replayed and queued work together is all that had to wait, in order, if and only if the
   queue never overflowed.
   */
  lemma {:induction false} WorkExactlyOnce(states: seq<System>, actions: seq<Action>, i: nat)
    requires Run(states, actions) && i < |states|
    ensures var s, waited := states[i], Waited(states, actions, i);
            && StatesOf(s.room.replayed) + StatesOf(s.room.queue) == StatesOf(waited)
            && |EventsOf(s.room.replayed)| + |EventsOf(s.room.queue)| + s.overflows == |EventsOf(waited)|
            && (s.room.replayed + s.room.queue == waited <==> s.overflows == 0)
  {
    WorkAccounts(states, actions, i);
    EventsOfConcat(states[i].room.replayed, states[i].room.queue);
  }

  lemma {:induction false} WorkAccounts(states: seq<System>, actions: seq<Action>, i: nat)
    requires Run(states, actions) && i < |states|
    ensures Accounts(states[i].room, Waited(states, actions, i), states[i].overflows)
  {
    hide Accounts, Step, Enabled, Waits;
    if i == 0 {
      NothingWaited();
    } else {
      WorkAccounts(states, actions, i - 1);
      RunInv(states, actions, i - 1);
      StepAccounts(states[i - 1], actions[i - 1], Waited(states, actions, i - 1));
    }
  }

  lemma NothingWaited()
    ensures Accounts(NEW_ROOM, [], 0)
  {
  }

  lemma {:induction false} FullIncreasing(ids: seq<EventId>, bound: nat)
    requires Increasing(ids, bound) && |ids| == bound
    ensures ids == seq(bound, k requires 0 <= k => k)
  {
    forall k | 0 <= k < bound
      ensures ids[k] == k
    {
      AtLeastIndex(ids, bound, k);
      AtMostIndex(ids, bound, k);
    }
  }

  lemma {:induction false} AtLeastIndex(ids: seq<EventId>, bound: nat, k: nat)
    requires Increasing(ids, bound) && k < |ids|
    ensures ids[k] >= k
  {
    if k > 0 {
      AtLeastIndex(ids, bound, k - 1);
    }
  }

  lemma {:induction false} AtMostIndex(ids: seq<EventId>, bound: nat, k: nat)
    requires Increasing(ids, bound) && k < |ids|
    ensures ids[k] <= bound - |ids| + k
    decreases |ids| - k
  {
    if k + 1 < |ids| {
      AtMostIndex(ids, bound, k + 1);
    }
  }

  /** Between handlers, and with no disconnect under way, work for a live room always has a timer to come back to it. */
  lemma NoLostWakeup(states: seq<System>, actions: seq<Action>, i: nat)
    requires Run(states, actions) && i < |states|
    requires var s := states[i]; s.running.Idle? && s.closing == 0 && s.room.live
    ensures states[i].room.queue != [] || states[i].room.window ==> states[i].room.timer
  {
    RunInv(states, actions, i);
  }

  /** `online` answers exactly one `offline`, and comes with a transport and nothing left to send. */
  lemma NoticesPair(states: seq<System>, actions: seq<Action>, i: nat)
    requires Run(states, actions) && i < |actions|
    ensures Paired(states[i].room.notices, states[i].room.window)
    ensures states[i + 1].room.notices == states[i].room.notices + [Online] ==>
              var r := states[i + 1].room; r.live && r.queue == [] && !r.timer && !r.replaying
  {
    RunInv(states, actions, i);
    var s := states[i];
    assert s.room.notices != s.room.notices + [Online];
    assert s.room.notices + [Online] != s.room.notices + [Offline] by {
      assert (s.room.notices + [Online])[|s.room.notices|] != (s.room.notices + [Offline])[|s.room.notices|];
    }
    assert s.room.notices + [Online] != s.room.notices + [ManualDisconnect] by {
      assert (s.room.notices + [Online])[|s.room.notices|] != (s.room.notices + [ManualDisconnect])[|s.room.notices|];
    }
    match actions[i]
    case EventEmitted =>
      if ShouldQueue(s.room) {
        AppendEntryKeeps(s.room.queue, EventEntry(s.emitted, s.room.nextKey));
        QueuedNotEmpty(s.room.queue, EventEntry(s.emitted, s.room.nextKey));
      }
    case StateCommitted(mutation) =>
      if ShouldQueue(s.room) {
        QueuedNotEmpty(s.room.queue, StateEntry(mutation));
      }
    case _ =>
  }

  lemma QueuedNotEmpty(queue: seq<Entry>, entry: Entry)
    requires CountEvents(queue) <= EVENT_LIMIT
    ensures AppendEntry(queue, entry) != []
  {
    AppendEntryKeeps(queue, entry);
    assert EventsOf(AppendEntry(queue, entry)) != [] || StatesOf(AppendEntry(queue, entry)) != [];
  }

  // ---------------------------------------------------------------- what one replay does

  lemma {:induction false} ReplayAllSendsAll(r: Room)
    requires r.live && Keys(r)
    ensures var t := ReplayAll(r);
            t == r.(queue := [], sent := r.sent + EventsOf(r.queue), dispatched := t.dispatched,
                    replayed := r.replayed + r.queue)
    decreases |r.queue|
  {
    if r.queue != [] {
      ReplayOneKeeps(r);
      ReplayAllSendsAll(ReplayOne(r));
    }
  }

  /** A replay nobody emits into leaves a live room with an empty queue, every event sent, and the window closed. */
  lemma FlushDelivers(states: seq<System>, actions: seq<Action>, i: nat)
    requires Run(states, actions) && i < |states|
    requires states[i].running.Idle? && states[i].room.live
    ensures var r := states[i].room;
            var t := Flush(r.(timer := false));
            && t.queue == [] && t.sent == r.sent + EventsOf(r.queue) && t.replayed == r.replayed + r.queue
            && !t.window && !t.timer && !t.replaying
            && t.notices == if r.window then r.notices + [Online] else r.notices
  {
    RunInv(states, actions, i);
    var r := states[i].room.(timer := false, replaying := true);
    ReplayAllSendsAll(r);
  }

  // ---------------------------------------------------------------- the exceptions do happen

  /** A run that ends in `s`, and one step more. */
  ghost predicate Reached(s: System) {
    exists states, actions :: Run(states, actions) && states[|actions|] == s
  }

  lemma StartReached()
    ensures Reached(START)
  {
    assert Run([START], []);
  }

  lemma OneMore(s: System, a: Action)
    requires Reached(s) && Enabled(s, a)
    ensures Reached(Step(s, a))
  {
    hide Enabled, Step;
    var states, actions :| Run(states, actions) && states[|actions|] == s;
    var states', actions' := states + [Step(s, a)], actions + [a];
    assert Run(states', actions');
    assert states'[|actions'|] == Step(s, a);
  }

  function Numbered(n: nat): seq<Entry> {
    if n == 0 then [] else Numbered(n - 1) + [EventEntry(n - 1, n - 1)]
  }

  lemma {:induction false} NumberedEvents(n: nat)
    ensures EventsOf(Numbered(n)) == seq(n, k requires 0 <= k => k)
  {
    if n > 0 {
      NumberedEvents(n - 1);
      EventsOfConcat(Numbered(n - 1), [EventEntry(n - 1, n - 1)]);
      EventsOfCons(EventEntry(n - 1, n - 1), []);
      assert [EventEntry(n - 1, n - 1)] + [] == [EventEntry(n - 1, n - 1)];
    }
  }

  /** A room that had a transport and lost it, with `n` events emitted since. */
  function AwayWith(n: nat): System {
    System(Room(false, true, Numbered(n), false, false, false, true, {}, n, [], [], [Offline], []), Idle, 0, n, 0)
  }

  lemma {:induction false} OfflineReached(n: nat)
    requires n <= EVENT_LIMIT
    ensures Reached(AwayWith(n))
  {
    if n == 0 {
      var s1 := Step(START, ActivateBegun);
      var s2 := Step(s1, ActivateEnded);
      var s3 := Step(s2, DropBegun);
      StartReached();
      OneMore(START, ActivateBegun);
      OneMore(s1, ActivateEnded);
      OneMore(s2, DropBegun);
      OneMore(s3, DropEnded);
      assert Step(s3, DropEnded) == AwayWith(0);
    } else {
      OfflineReached(n - 1);
      OneMore(AwayWith(n - 1), EventEmitted);
      EmittedOffline(n - 1);
    }
  }

  lemma EmittedOffline(n: nat)
    requires n < EVENT_LIMIT
    ensures Step(AwayWith(n), EventEmitted) == AwayWith(n + 1)
  {
    NumberedEvents(n);
    NumberedEvents(n + 1);
    CountIsLength(Numbered(n));
    CountIsLength(Numbered(n + 1));
    DropNothing(Numbered(n + 1));
  }

  /** With 101 events emitted offline, the first is neither sent nor queued any more. */
  lemma OverflowLosesTheFirst()
    ensures var s := Step(AwayWith(EVENT_LIMIT), EventEmitted);
            Reached(s) && s.emitted == 101 && s.overflows == 1 && 0 !in Kept(s.room)
  {
    OfflineReached(EVENT_LIMIT);
    OneMore(AwayWith(EVENT_LIMIT), EventEmitted);
    hide Reached, AppendEntry, CountEvents, Numbered, EventsOf;
    NumberedCount();
    var queue := AppendEntry(Numbered(EVENT_LIMIT), EventEntry(EVENT_LIMIT, EVENT_LIMIT));
    assert Step(AwayWith(EVENT_LIMIT), EventEmitted).room.queue == queue;
    assert [] + EventsOf(queue) == EventsOf(queue);
  }

  lemma NumberedCount()
    ensures CountEvents(Numbered(EVENT_LIMIT)) == EVENT_LIMIT && Numbered(EVENT_LIMIT) != []
    ensures 0 !in EventsOf(AppendEntry(Numbered(EVENT_LIMIT), EventEntry(EVENT_LIMIT, EVENT_LIMIT)))
  {
    hide AppendEntry, Numbered;
    var events := seq(EVENT_LIMIT, k requires 0 <= k => k);
    NumberedEvents(EVENT_LIMIT);
    CountIsLength(Numbered(EVENT_LIMIT));
    AppendEntryKeeps(Numbered(EVENT_LIMIT), EventEntry(EVENT_LIMIT, EVENT_LIMIT));
    assert |events + [EVENT_LIMIT]| > EVENT_LIMIT;
    assert 0 !in (events + [EVENT_LIMIT])[1..];
  }

  /** While a manual disconnect is under way, a live transport with a queue can be without a timer. */
  lemma DisconnectCancelsWakeup()
    ensures var s := Step(Step(Step(AwayWith(1), ActivateBegun), ActivateEnded), DisconnectBegun);
            && Reached(s) && s.running.Idle? && s.closing == 1
            && s.room.live && s.room.queue != [] && !s.room.timer
  {
    OfflineReached(1);
    OneMore(AwayWith(1), ActivateBegun);
    OneMore(Step(AwayWith(1), ActivateBegun), ActivateEnded);
    OneMore(Step(Step(AwayWith(1), ActivateBegun), ActivateEnded), DisconnectBegun);
  }
}
