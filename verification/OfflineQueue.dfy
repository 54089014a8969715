/**
 The offline half of a room: work done while the transport is away is queued, and replayed after it has come back
 and settled. At most 100 events are kept; the oldest give way.
 */
module OfflineQueue {
  type EventId = nat
  type Key = nat

  const EVENT_LIMIT: nat := 100

  datatype Entry = EventEntry(event: EventId, key: Key) | StateEntry(mutation: nat)

  datatype Notice = Offline | Online | ManualDisconnect

  /**
   `live` is whether there is a transport, `sent` the events handed to one, `shared` the state changes sent as they were
   made, and `notices` the `offline` and `online` events emitted, with a mark for each manual disconnect. `nextKey`
   stands for a random id that never repeats. `replayed` is history: what the replays took off the queue.
   */
  datatype Room = Room(
    live: bool, connectedBefore: bool, queue: seq<Entry>,
    timer: bool, replaying: bool, requested: bool, window: bool,
    dispatched: set<Key>, nextKey: Key, sent: seq<EventId>, shared: seq<nat>, notices: seq<Notice>,
    replayed: seq<Entry>)

  const NEW_ROOM := Room(false, false, [], false, false, false, false, {}, 0, [], [], [], [])

  // ---------------------------------------------------------------- the queue

  function CountEvents(entries: seq<Entry>): nat {
    if entries == [] then 0 else (if entries[0].EventEntry? then 1 else 0) + CountEvents(entries[1..])
  }

  function EventsOf(entries: seq<Entry>): seq<EventId> {
    if entries == [] then []
    else (if entries[0].EventEntry? then [entries[0].event] else []) + EventsOf(entries[1..])
  }

  function StatesOf(entries: seq<Entry>): seq<Entry> {
    if entries == [] then []
    else (if entries[0].StateEntry? then [entries[0]] else []) + StatesOf(entries[1..])
  }

  function DropEvents(entries: seq<Entry>, n: nat): seq<Entry> {
    if entries == [] then []
    else if entries[0].EventEntry? && n > 0 then DropEvents(entries[1..], n - 1)
    else [entries[0]] + DropEvents(entries[1..], n)
  }

  function Trim(entries: seq<Entry>): seq<Entry> {
    DropEvents(entries, if CountEvents(entries) > EVENT_LIMIT then CountEvents(entries) - EVENT_LIMIT else 0)
  }

  function AppendEntry(entries: seq<Entry>, entry: Entry): seq<Entry> {
    Trim(entries + [entry])
  }

  lemma CountIsLength(entries: seq<Entry>)
    ensures CountEvents(entries) == |EventsOf(entries)|
  {
  }

  lemma EventsOfCons(entry: Entry, rest: seq<Entry>)
    ensures EventsOf([entry] + rest) == (if entry.EventEntry? then [entry.event] else []) + EventsOf(rest)
    ensures StatesOf([entry] + rest) == (if entry.StateEntry? then [entry] else []) + StatesOf(rest)
  {
    assert ([entry] + rest)[0] == entry && ([entry] + rest)[1..] == rest;
  }

  lemma {:induction false} EventsOfConcat(a: seq<Entry>, b: seq<Entry>)
    ensures EventsOf(a + b) == EventsOf(a) + EventsOf(b)
    ensures StatesOf(a + b) == StatesOf(a) + StatesOf(b)
  {
    if a == [] {
      assert a + b == b;
      assert EventsOf(a) == [] && StatesOf(a) == [];
    } else {
      hide EventsOf, StatesOf;
      var first, rest := a[0], a[1..];
      assert a == [first] + rest && a + b == [first] + (rest + b);
      EventsOfConcat(rest, b);
      EventsOfCons(first, rest);
      EventsOfCons(first, rest + b);
      var event := if first.EventEntry? then [first.event] else [];
      var state := if first.StateEntry? then [first] else [];
      assert event + EventsOf(rest) + EventsOf(b) == event + (EventsOf(rest) + EventsOf(b));
      assert state + StatesOf(rest) + StatesOf(b) == state + (StatesOf(rest) + StatesOf(b));
    }
  }

  /** Dropping takes the oldest events, and only events. */
  lemma {:induction false} DropEventsDrops(entries: seq<Entry>, n: nat)
    requires n <= |EventsOf(entries)|
    ensures EventsOf(DropEvents(entries, n)) == EventsOf(entries)[n..]
    ensures StatesOf(DropEvents(entries, n)) == StatesOf(entries)
  {
    if entries != [] {
      var first, rest := entries[0], entries[1..];
      assert entries == [first] + rest;
      EventsOfCons(first, rest);
      if first.EventEntry? && n > 0 {
        DropEventsDrops(rest, n - 1);
      } else {
        DropEventsDrops(rest, if first.EventEntry? then 0 else n);
        EventsOfCons(first, DropEvents(rest, n));
      }
    }
  }

  lemma {:induction false} DropEventsKeepsMembers(entries: seq<Entry>, n: nat)
    ensures forall e | e in DropEvents(entries, n) :: e in entries
  {
    if entries != [] {
      DropEventsKeepsMembers(entries[1..], n);
      if n > 0 {
        DropEventsKeepsMembers(entries[1..], n - 1);
      }
    }
  }

  /** Appending keeps every state change, at most 100 events, and loses an event only if 100 were queued. */
  lemma AppendEntryKeeps(entries: seq<Entry>, entry: Entry)
    requires CountEvents(entries) <= EVENT_LIMIT
    ensures var after := AppendEntry(entries, entry);
            var events := EventsOf(entries) + (if entry.EventEntry? then [entry.event] else []);
            && CountEvents(after) <= EVENT_LIMIT
            && StatesOf(after) == StatesOf(entries) + (if entry.StateEntry? then [entry] else [])
            && EventsOf(after) == (if |events| > EVENT_LIMIT then events[1..] else events)
  {
    EventsOfConcat(entries, [entry]);
    EventsOfCons(entry, []);
    assert [entry] + [] == [entry];
    CountIsLength(entries);
    CountIsLength(entries + [entry]);
    DropEventsDrops(entries + [entry], if CountEvents(entries + [entry]) > EVENT_LIMIT then 1 else 0);
    CountIsLength(AppendEntry(entries, entry));
  }

  lemma {:induction false} DropNothing(entries: seq<Entry>)
    ensures DropEvents(entries, 0) == entries
  {
    if entries != [] {
      DropNothing(entries[1..]);
      assert [entries[0]] + entries[1..] == entries;
    }
  }

  /** `fewer` is `entries` without its oldest event. */
  ghost predicate WithoutOldest(entries: seq<Entry>, fewer: seq<Entry>) {
    exists front: seq<Entry>, oldest: Entry, back: seq<Entry> ::
      && entries == front + [oldest] + back && fewer == front + back
      && oldest.EventEntry? && forall i | 0 <= i < |front| :: front[i].StateEntry?
  }

  lemma {:induction false} DropOne(entries: seq<Entry>)
    requires CountEvents(entries) > 0
    ensures WithoutOldest(entries, DropEvents(entries, 1))
  {
    var first, rest := entries[0], entries[1..];
    if first.EventEntry? {
      DropNothing(rest);
      assert entries == [] + [first] + rest && rest == [] + rest;
    } else {
      DropOne(rest);
      var front: seq<Entry>, oldest: Entry, back: seq<Entry> :|
        && rest == front + [oldest] + back && DropEvents(rest, 1) == front + back
        && oldest.EventEntry? && forall i | 0 <= i < |front| :: front[i].StateEntry?;
      assert entries == ([first] + front) + [oldest] + back;
      assert [first] + (front + back) == ([first] + front) + back;
    }
  }

  /** A new entry goes behind all others; the oldest event makes room for an event that is one too many. */
  lemma AppendsBehind(entries: seq<Entry>, entry: Entry)
    requires CountEvents(entries) <= EVENT_LIMIT
    ensures if entry.EventEntry? && CountEvents(entries) == EVENT_LIMIT
            then WithoutOldest(entries + [entry], AppendEntry(entries, entry))
            else AppendEntry(entries, entry) == entries + [entry]
  {
    hide WithoutOldest;
    EventsOfConcat(entries, [entry]);
    EventsOfCons(entry, []);
    assert [entry] + [] == [entry];
    CountIsLength(entries);
    CountIsLength(entries + [entry]);
    DropNothing(entries + [entry]);
    if CountEvents(entries + [entry]) > EVENT_LIMIT {
      DropOne(entries + [entry]);
    }
  }

  // ---------------------------------------------------------------- the handlers' synchronous stretches

  predicate ShouldQueue(r: Room) {
    (!r.live && r.connectedBefore) || |r.queue| > 0 || r.timer || r.replaying
  }

  /** An event for a room without a transport goes nowhere. */
  function Dispatch(r: Room, event: EventId): Room {
    if r.live then r.(sent := r.sent + [event]) else r
  }

  function CompleteWindow(r: Room): Room {
    if !r.window || !r.live || |r.queue| > 0 || r.timer || r.replaying then r
    else r.(window := false, notices := r.notices + [Online])
  }

  function Schedule(r: Room): Room {
    if !r.live then r
    else if |r.queue| == 0 then CompleteWindow(r)
    else if r.replaying then r.(requested := true)
    else r.(timer := true)
  }

  function Emit(r: Room, event: EventId): Room {
    if ShouldQueue(r)
    then Schedule(r.(queue := AppendEntry(r.queue, EventEntry(event, r.nextKey)), nextKey := r.nextKey + 1))
    else Dispatch(r, event)
  }

  function Commit(r: Room, mutation: nat): Room {
    if ShouldQueue(r) then Schedule(r.(queue := AppendEntry(r.queue, StateEntry(mutation))))
    else if r.live then r.(shared := r.shared + [mutation])
    else r
  }

  /** One turn of the replay loop. What a state change does to the shared state is not modelled. */
  function ReplayOne(r: Room): Room
    requires |r.queue| > 0
  {
    var entry := r.queue[0];
    var isNew := entry.EventEntry? && entry.key !in r.dispatched;
    r.(queue := r.queue[1..], replayed := r.replayed + [entry],
       sent := if isNew && r.live then r.sent + [entry.event] else r.sent,
       dispatched := if isNew then r.dispatched + {entry.key} else r.dispatched)
  }

  function ReplayAll(r: Room): Room
    decreases |r.queue|
  {
    if |r.queue| == 0 then r else ReplayAll(ReplayOne(r))
  }

  lemma {:induction false} ReplayAllTakes(r: Room)
    ensures ReplayAll(r).queue == [] && ReplayAll(r).replayed == r.replayed + r.queue
    decreases |r.queue|
  {
    if r.queue != [] {
      ReplayOneTakes(r);
      hide ReplayOne;
      ReplayAllTakes(ReplayOne(r));
      assert r.replayed + [r.queue[0]] + r.queue[1..] == r.replayed + r.queue;
    }
  }

  lemma ReplayOneTakes(r: Room)
    requires |r.queue| > 0
    ensures ReplayOne(r).queue == r.queue[1..] && ReplayOne(r).replayed == r.replayed + [r.queue[0]]
  {
  }

  lemma ReplayAllEnds(r: Room)
    requires |r.queue| == 0
    ensures ReplayAll(r) == r
  {
  }

  lemma ReplayAllUnfolds(r: Room)
    requires |r.queue| > 0
    ensures ReplayAll(r) == ReplayAll(ReplayOne(r))
  {
  }

  predicate CanReplay(r: Room) {
    !r.replaying && r.live
  }

  function EndReplay(r: Room): Room {
    var done := r.(replaying := false, requested := false);
    if r.requested then Schedule(done) else CompleteWindow(done)
  }

  function Flush(r: Room): Room {
    if CanReplay(r) then EndReplay(ReplayAll(r.(replaying := true))) else r
  }

  /** A replay takes the whole queue, in order, and leaves nothing to wait for. */
  lemma FlushTakesAll(r: Room)
    requires r.live && !r.replaying
    ensures var t := Flush(r);
            t.queue == [] && t.replayed == r.replayed + r.queue && !t.replaying && !t.requested
  {
    ReplayAllTakes(r.(replaying := true));
  }

  function BeginActivate(r: Room): Room {
    r.(live := true, connectedBefore := true)
  }

  function EndActivate(r: Room): Room {
    CompleteWindow(Schedule(r))
  }

  function BeginDrop(r: Room): Room {
    var quiet := r.(timer := false, requested := false);
    if r.window then quiet else quiet.(window := true, notices := r.notices + [Offline])
  }

  function BeginDisconnect(r: Room): Room {
    r.(timer := false, requested := false, window := false, dispatched := {}, notices := r.notices + [ManualDisconnect])
  }

  function LoseTransport(r: Room): Room {
    r.(live := false)
  }

  // ---------------------------------------------------------------- the room

  class OfflineRoom {
    var transport: bool
    var hasConnectedBefore: bool
    var offlineQueue: seq<Entry>
    var offlineReplayTimer: bool
    var offlineReplayInProgress: bool
    var offlineReplayRequested: bool
    var offlineWindowActive: bool
    var dispatchedEventKeys: set<Key>
    var nextKey: Key
    var sent: seq<EventId>
    var shared: seq<nat>
    var notices: seq<Notice>
    var replayed: seq<Entry>

    function Abs(): Room
      reads this
    {
      Room(transport, hasConnectedBefore, offlineQueue, offlineReplayTimer, offlineReplayInProgress,
           offlineReplayRequested, offlineWindowActive, dispatchedEventKeys, nextKey, sent, shared, notices, replayed)
    }

    /** Work is to wait for its turn: the transport is away, or earlier work has not been replayed yet. */
    predicate MustWait()
      reads this
    {
      || (!transport && hasConnectedBefore)
      || offlineQueue != [] || offlineReplayTimer || offlineReplayInProgress
    }

    constructor ()
      ensures Abs() == NEW_ROOM
    {
      transport, hasConnectedBefore, offlineQueue := false, false, [];
      offlineReplayTimer, offlineReplayInProgress, offlineReplayRequested, offlineWindowActive := false, false, false, false;
      dispatchedEventKeys, nextKey, sent, shared, notices, replayed := {}, 0, [], [], [], [];
    }

    static method CountQueuedEvents(entries: seq<Entry>) returns (count: nat)
      ensures count == CountEvents(entries)
    {
      count := 0;
      for i := 0 to |entries|
        invariant count + CountEvents(entries[i..]) == CountEvents(entries)
      {
        assert entries[i..][1..] == entries[i + 1..];
        if entries[i].EventEntry? {
          count := count + 1;
        }
      }
    }

    static method TrimQueuedEvents(entries: seq<Entry>) returns (trimmed: seq<Entry>)
      ensures trimmed == Trim(entries)
    {
      var count := CountQueuedEvents(entries);
      var remainingEventsToDrop := if count > EVENT_LIMIT then count - EVENT_LIMIT else 0;
      trimmed := [];
      for i := 0 to |entries|
        invariant 0 <= remainingEventsToDrop
        invariant trimmed + DropEvents(entries[i..], remainingEventsToDrop) == Trim(entries)
      {
        assert entries[i..][1..] == entries[i + 1..];
        if entries[i].EventEntry? && remainingEventsToDrop > 0 {
          remainingEventsToDrop := remainingEventsToDrop - 1;
        } else {
          trimmed := trimmed + [entries[i]];
        }
      }
    }

    method DispatchRoomSignal(event: EventId)
      modifies this`sent
      ensures Abs() == Dispatch(old(Abs()), event)
      ensures sent == if transport then old(sent) + [event] else old(sent)
    {
      if !transport {
        return;
      }
      sent := sent + [event];
    }

    method EmitEvent(event: EventId)
      modifies this
      ensures Abs() == Emit(old(Abs()), event)
      ensures old(MustWait() && CountEvents(offlineQueue) <= EVENT_LIMIT) ==>
                && sent == old(sent) && nextKey == old(nextKey) + 1
                && var longer := old(offlineQueue) + [EventEntry(event, old(nextKey))];
                   if old(CountEvents(offlineQueue)) < EVENT_LIMIT then offlineQueue == longer
                   else WithoutOldest(longer, offlineQueue)
      ensures !old(MustWait()) ==>
                offlineQueue == old(offlineQueue) && sent == if transport then old(sent) + [event] else old(sent)
    {
      hide Schedule, CountEvents, WithoutOldest, DropEvents;
      if CountEvents(offlineQueue) <= EVENT_LIMIT {
        AppendsBehind(offlineQueue, EventEntry(event, nextKey));
      }
      if ShouldQueue(Abs()) {
        var key := nextKey;
        nextKey := nextKey + 1;
        offlineQueue := TrimQueuedEvents(offlineQueue + [EventEntry(event, key)]);
        ScheduleOfflineQueueReplay();
      } else {
        DispatchRoomSignal(event);
      }
    }

    method CommitStateChange(mutation: nat)
      modifies this
      ensures Abs() == Commit(old(Abs()), mutation)
      ensures old(MustWait() && CountEvents(offlineQueue) <= EVENT_LIMIT) ==>
                offlineQueue == old(offlineQueue) + [StateEntry(mutation)] && shared == old(shared)
      ensures !old(MustWait()) ==>
                offlineQueue == old(offlineQueue) && shared == if transport then old(shared) + [mutation] else old(shared)
    {
      hide Schedule, CountEvents, DropEvents;
      if CountEvents(offlineQueue) <= EVENT_LIMIT {
        AppendsBehind(offlineQueue, StateEntry(mutation));
      }
      if ShouldQueue(Abs()) {
        offlineQueue := TrimQueuedEvents(offlineQueue + [StateEntry(mutation)]);
        ScheduleOfflineQueueReplay();
      } else if transport {
        shared := shared + [mutation];
      }
    }

    method CancelOfflineQueueReplay()
      modifies this`offlineReplayTimer
      ensures !offlineReplayTimer
    {
      offlineReplayTimer := false;
    }

    method CompleteOfflineWindowIfReady()
      modifies this`offlineWindowActive, this`notices
      ensures Abs() == CompleteWindow(old(Abs()))
      ensures var closes := old(offlineWindowActive) && transport && offlineQueue == [] &&
                            !offlineReplayTimer && !offlineReplayInProgress;
              && offlineWindowActive == (old(offlineWindowActive) && !closes)
              && notices == old(notices) + if closes then [Online] else []
    {
      if !offlineWindowActive || !transport || |offlineQueue| > 0 || offlineReplayTimer || offlineReplayInProgress {
        return;
      }
      offlineWindowActive := false;
      notices := notices + [Online];
    }

    method ScheduleOfflineQueueReplay()
      modifies this`offlineWindowActive, this`notices, this`offlineReplayRequested, this`offlineReplayTimer
      ensures Abs() == Schedule(old(Abs()))
      ensures var due := transport && offlineQueue != [];
              && offlineReplayTimer == (old(offlineReplayTimer) || (due && !offlineReplayInProgress))
              && offlineReplayRequested == (old(offlineReplayRequested) || (due && offlineReplayInProgress))
    {
      if !transport {
        return;
      }
      if |offlineQueue| == 0 {
        CompleteOfflineWindowIfReady();
        return;
      }
      if offlineReplayInProgress {
        offlineReplayRequested := true;
        return;
      }
      CancelOfflineQueueReplay();
      offlineReplayTimer := true;
    }

    /** The timer's callback. */
    method ReplayTimerFired()
      modifies this
      ensures Abs() == Flush(old(Abs()).(timer := false))
    {
      offlineReplayTimer := false;
      FlushOfflineQueue();
    }

    /** A replay nobody emits into. */
    method FlushOfflineQueue()
      modifies this
      ensures Abs() == Flush(old(Abs()))
    {
      hide Schedule, CompleteWindow, ReplayAll, Dispatch;
      if offlineReplayInProgress || !transport {
        return;
      }
      offlineReplayInProgress := true;
      ghost var start := Abs();
      while |offlineQueue| > 0
        invariant ReplayAll(Abs()) == ReplayAll(start)
        decreases |offlineQueue|
      {
        ReplayAllUnfolds(Abs());
        var entry := offlineQueue[0];
        offlineQueue, replayed := offlineQueue[1..], replayed + [entry];
        if entry.EventEntry? && entry.key !in dispatchedEventKeys {
          DispatchRoomSignal(entry.event);
          dispatchedEventKeys := dispatchedEventKeys + {entry.key};
        }
      }
      ReplayAllEnds(Abs());
      offlineReplayInProgress := false;
      var shouldReschedule := offlineReplayRequested;
      offlineReplayRequested := false;
      if shouldReschedule {
        ScheduleOfflineQueueReplay();
        return;
      }
      CompleteOfflineWindowIfReady();
    }

    method ActivateConnectedTransport()
      modifies this
      ensures Abs() == EndActivate(BeginActivate(old(Abs())))
      ensures transport && hasConnectedBefore && offlineQueue == old(offlineQueue) && sent == old(sent)
      ensures offlineQueue != [] && !offlineReplayInProgress ==> offlineReplayTimer
    {
      transport := true;
      hasConnectedBefore := true;
      ScheduleOfflineQueueReplay();
      CompleteOfflineWindowIfReady();
    }

    method HandleTransportDisconnected()
      modifies this
      ensures Abs() == LoseTransport(BeginDrop(old(Abs())))
      ensures !transport && !offlineReplayTimer && !offlineReplayRequested && offlineWindowActive
      ensures notices == old(notices) + if old(offlineWindowActive) then [] else [Offline]
      ensures offlineQueue == old(offlineQueue) && dispatchedEventKeys == old(dispatchedEventKeys)
    {
      CancelOfflineQueueReplay();
      offlineReplayRequested := false;
      if !offlineWindowActive {
        offlineWindowActive := true;
        notices := notices + [Offline];
      }
      transport := false;
    }

    method Disconnect()
      modifies this
      ensures Abs() == LoseTransport(BeginDisconnect(old(Abs())))
      ensures !transport && !offlineReplayTimer && !offlineReplayRequested && !offlineWindowActive
      ensures dispatchedEventKeys == {} && offlineQueue == old(offlineQueue)
    {
      CancelOfflineQueueReplay();
      offlineReplayRequested := false;
      offlineWindowActive := false;
      dispatchedEventKeys := {};
      notices := notices + [ManualDisconnect];
      transport := false;
    }
  }
}
