/** What the events of a run say about who is in an edge room, and what each connection is told. */
module EdgeHistory {
  import opened RelayTypes
  import opened Values
  import opened Schemas
  import opened WireSchemas
  import opened Protocol
  import opened ProtocolRoundTrips
  import opened EdgeRoom
  import opened EdgeRuns

  // ---------------------------------------------------------------- who comes and goes

  predicate HasSpace(config: Config, peers: map<PeerId, EdgePeer>, asked: Option<int>) {
    && (asked.Some? ==> |peers| < asked.value)
    && (ValidLimit(config) ==> |peers| < config.maxRoomSize.value.value.Floor)
  }

  /** A join of the peer is allowed, under a name nobody has, with space by its own wish and by the room's limit. */
  predicate Comes(config: Config, s: System, e: Event, p: PeerId) {
    && e.JoinDecided? && e.allowed && e.ticket in s.waiting && s.waiting[e.ticket].message.peerId == p
    && p !in s.edge.peers && HasSpace(config, s.edge.peers, s.waiting[e.ticket].message.maxPeers)
  }

  /** The connection is joined as the peer. */
  predicate On(s: System, c: Connection, p: PeerId) {
    c in s.edge.byConnection && s.edge.byConnection[c].peerId == p
  }

  /** The connection joined as the peer leaves under its name, fails or closes. */
  predicate Goes(config: Config, s: System, e: Event, p: PeerId) {
    match e
    case LeaveReceived(c, room, peerId) => On(s, c, p) && room == config.roomId && peerId == p
    case ConnectionErrored(c) => On(s, c, p)
    case ConnectionClosed(c) => On(s, c, p)
    case _ => false
  }

  lemma AdmittedComes(config: Config, s: System, e: Event)
    ensures Admits(config, s, e) <==>
            e.JoinDecided? && e.ticket in s.waiting && Comes(config, s, e, s.waiting[e.ticket].message.peerId)
  {
  }

  lemma RemovedGoes(config: Config, s: System, e: Event, p: PeerId)
    ensures Goes(config, s, e, p) <==> Removes(config, s, e) && On(s, e.connection, p)
  {
  }

  /** After a step exactly those are there that came now, or were there and did not go; and each as it came. */
  lemma MembersExactly(config: Config, s: System, e: Event, s': System, p: PeerId)
    requires Indexed(s.edge) && Step(config, s, e, s')
    ensures p in s'.edge.peers <==> Comes(config, s, e, p) || (p in s.edge.peers && !Goes(config, s, e, p))
    ensures Comes(config, s, e, p) ==>
              var join := s.waiting[e.ticket];
              s'.edge.peers[p] == EdgePeer(p, join.connection, join.message.protocol)
    ensures p in s'.edge.peers && p in s.edge.peers ==> s'.edge.peers[p] == s.edge.peers[p]
  {
    hide Step, Comes, Goes, Removes, Admits;
    RemovedGoes(config, s, e, p);
    AdmittedComes(config, s, e);
    if Admits(config, s, e) {
      AdmitStepEdge(config, s, e, s');
      NoneGoes(config, s, e, p);
      OneComes(config, s, e, p);
    } else {
      NobodyComes(config, s, e, p);
      if Removes(config, s, e) {
        RemovingStep(config, s, e, s');
      } else {
        QuietStep(config, s, e, s');
      }
    }
  }

  lemma NoneGoes(config: Config, s: System, e: Event, p: PeerId)
    requires Admits(config, s, e)
    ensures !Goes(config, s, e, p)
  {
  }

  lemma OneComes(config: Config, s: System, e: Event, p: PeerId)
    requires Admits(config, s, e)
    ensures e.JoinDecided? && e.ticket in s.waiting
    ensures Comes(config, s, e, p) <==> s.waiting[e.ticket].message.peerId == p
  {
  }

  lemma NobodyComes(config: Config, s: System, e: Event, p: PeerId)
    requires !Admits(config, s, e)
    ensures !Comes(config, s, e, p)
  {
  }

  /** A connection is joined as whoever came over it last, until that peer goes. */
  lemma ConnectionsExactly(config: Config, s: System, e: Event, s': System, c: Connection, p: PeerId)
    requires Indexed(s.edge) && Step(config, s, e, s')
    ensures On(s', c, p) <==>
            if exists q :: Comes(config, s, e, q) && s.waiting[e.ticket].connection == c
            then Comes(config, s, e, p) else On(s, c, p) && !Goes(config, s, e, p)
  {
    hide Step, Comes, Goes, Removes, Admits;
    RemovedGoes(config, s, e, p);
    AdmittedComes(config, s, e);
    if Admits(config, s, e) {
      AdmitStepEdge(config, s, e, s');
      NoneGoes(config, s, e, p);
      OneComes(config, s, e, p);
    } else {
      forall q ensures !Comes(config, s, e, q) {
        NobodyComes(config, s, e, q);
      }
      if Removes(config, s, e) {
        RemovingStep(config, s, e, s');
      } else {
        QuietStep(config, s, e, s');
      }
    }
  }

  // ---------------------------------------------------------------- every peer and its join

  /** A join goes on to its authorisation. */
  predicate GoesOn(config: Config, s: System, e: Event) {
    e.JoinBegun? && e.connection !in s.edge.byConnection && e.message.roomId == config.roomId
  }

  lemma StepTickets(config: Config, s: System, e: Event, s': System)
    requires Step(config, s, e, s')
    ensures GoesOn(config, s, e) ==>
              s' == s.(next := s.next + 1, waiting := s.waiting[s.next := Waiting(e.connection, e.message)])
    ensures !GoesOn(config, s, e) ==> s'.next == s.next && forall t | t in s'.waiting :: t in s.waiting && s'.waiting[t] == s.waiting[t]
  {
  }

  /** A waiting join is the one its number was given to. */
  lemma {:induction false} TicketsExactly(config: Config, states: seq<System>, events: seq<Event>, k: nat, t: nat)
    returns (i: nat)
    requires Trace(config, states, events) && k < |states| && t in states[k].waiting
    ensures i < k && GoesOn(config, states[i], events[i]) && states[i].next == t
    ensures states[k].waiting[t] == Waiting(events[i].connection, events[i].message)
  {
    hide Step;
    StepTickets(config, states[k - 1], events[k - 1], states[k]);
    if GoesOn(config, states[k - 1], events[k - 1]) && t == states[k - 1].next {
      i := k - 1;
    } else {
      i := TicketsExactly(config, states, events, k - 1, t);
    }
  }

  lemma {:induction false} NumbersGrow(config: Config, states: seq<System>, events: seq<Event>, i: nat, k: nat)
    requires Trace(config, states, events) && i < k < |states| && GoesOn(config, states[i], events[i])
    ensures states[i].next < states[k].next
    ensures states[i].next in states[k].waiting ==>
              states[k].waiting[states[i].next] == Waiting(events[i].connection, events[i].message)
  {
    hide Step, GoesOn;
    StepTickets(config, states[k - 1], events[k - 1], states[k]);
    if i < k - 1 {
      NumbersGrow(config, states, events, i, k - 1);
    }
  }

  /** By event `k` the peer is there by the join begun at `i` and admitted at `j`, and has not gone since. */
  ghost predicate JoinOf(config: Config, states: seq<System>, events: seq<Event>, k: nat, p: PeerId, i: nat, j: nat)
    requires Trace(config, states, events) && k < |states|
  {
    && i < j < k
    && GoesOn(config, states[i], events[i]) && events[j] == JoinDecided(states[i].next, true)
    && Comes(config, states[j], events[j], p)
    && forall n | j < n < k :: !Goes(config, states[n], events[n], p)
  }

  /** In every run, a peer that is there has a join that brought it. */
  lemma {:induction false} EveryPeerJoined(config: Config, states: seq<System>, events: seq<Event>, k: nat, p: PeerId)
    returns (i: nat, j: nat)
    requires Trace(config, states, events) && k < |states| && p in states[k].edge.peers
    ensures JoinOf(config, states, events, k, p, i, j)
  {
    hide Step, Comes, Goes, GoesOn;
    var s, e := states[k - 1], events[k - 1];
    RunInv(config, states, events, k - 1);
    MembersExactly(config, s, e, states[k], p);
    if Comes(config, s, e, p) {
      ComesByTicket(config, s, e, p);
      i := TicketsExactly(config, states, events, k - 1, e.ticket);
      j := k - 1;
    } else {
      i, j := EveryPeerJoined(config, states, events, k - 1, p);
    }
  }

  lemma ComesByTicket(config: Config, s: System, e: Event, p: PeerId)
    requires Comes(config, s, e, p)
    ensures e.JoinDecided? && e.ticket in s.waiting && e == JoinDecided(e.ticket, true)
    ensures s.waiting[e.ticket].message.peerId == p
  {
  }

  /**
   In every run, a peer whose join was admitted and that has not gone since is there, over the connection it asked to
   join by, and with the capabilities that it announced.
   */
  lemma {:induction false} PeerIsAsItJoined(config: Config, states: seq<System>, events: seq<Event>, k: nat, p: PeerId,
                                            i: nat, j: nat)
    requires Trace(config, states, events) && k < |states| && JoinOf(config, states, events, k, p, i, j)
    ensures events[i].message.peerId == p && p in states[k].edge.peers
    ensures states[k].edge.peers[p] == EdgePeer(p, events[i].connection, events[i].message.protocol)
  {
    hide Step, Comes, Goes;
    var s, e := states[k - 1], events[k - 1];
    RunInv(config, states, events, k - 1);
    MembersExactly(config, s, e, states[k], p);
    if j == k - 1 {
      ComesByTicket(config, s, e, p);
      NumbersGrow(config, states, events, i, j);
    } else {
      PeerIsAsItJoined(config, states, events, k - 1, p, i, j);
      AlreadyThere(config, s, e, p);
    }
  }

  lemma AlreadyThere(config: Config, s: System, e: Event, p: PeerId)
    requires p in s.edge.peers
    ensures !Comes(config, s, e, p)
  {
  }

  // ---------------------------------------------------------------- what is told of a join and a leave

  /** The peers over a connection, but for one. */
  ghost predicate Over(peers: map<PeerId, EdgePeer>, except: PeerId, c: Connection, ids: set<PeerId>) {
    forall q :: q in ids <==> q in peers && q != except && peers[q].connection == c
  }

  ghost predicate Only(messages: seq<ServerMessage>, m: ServerMessage) {
    forall k | 0 <= k < |messages| :: messages[k] == m
  }

  lemma {:induction false} RepeatIsOnly(m: ServerMessage, n: nat)
    ensures Only(Repeat(m, n), m)
  {
    if n > 0 {
      RepeatIsOnly(m, n - 1);
    }
  }

  lemma ReachedAreOver(peers: map<PeerId, EdgePeer>, except: PeerId, c: Connection)
    ensures Over(peers, except, c, Reached(peers, except, c))
    ensures forall ids | Over(peers, except, c, ids) :: ids == Reached(peers, except, c)
  {
  }

  /** The peers of a room as a `joined` list shows them. */
  ghost predicate Lists(peers: map<PeerId, EdgePeer>, list: set<JoinPeer>) {
    forall j :: j in list <==> j.peerId in peers && j.protocol == peers[j.peerId].protocol
  }

  lemma ExistingAreListed(edge: EdgeState)
    requires Indexed(edge)
    ensures Lists(edge.peers, ExistingPeers(edge.peers))
  {
    forall j ensures j in ExistingPeers(edge.peers) <==> j.peerId in edge.peers && j.protocol == edge.peers[j.peerId].protocol {
      if j.peerId in edge.peers && j.protocol == edge.peers[j.peerId].protocol {
        assert j == JoinPeer(edge.peers[j.peerId].peerId, edge.peers[j.peerId].protocol);
      }
    }
  }

  /** The joiner gets the list of those there; then every other connection, once for each of its peers, the news. */
  lemma ComingIsTold(config: Config, s: System, e: Event, s': System, p: PeerId, d: Connection)
    returns (list: set<JoinPeer>, news: seq<ServerMessage>, ids: set<PeerId>)
    requires Indexed(s.edge) && Step(config, s, e, s') && Comes(config, s, e, p)
    ensures Lists(s.edge.peers, list)
    ensures Over(s.edge.peers, p, d, ids) && |news| == |ids|
    ensures Only(news, PeerJoined(p, s.waiting[e.ticket].message.protocol))
    ensures Outbox(s'.out, d) == Outbox(s.out, d) +
              (if d == s.waiting[e.ticket].connection then [Joined(p, list)] else []) + news
  {
    var Waiting(c, message) := s.waiting[e.ticket];
    AdmittedComes(config, s, e);
    list := ExistingPeers(s.edge.peers);
    ExistingAreListed(s.edge);
    ids := Reached(s.edge.peers, p, d);
    news := Repeat(PeerJoined(p, message.protocol), |ids|);
    RepeatIsOnly(PeerJoined(p, message.protocol), |ids|);
    assert Reached(s'.edge.peers, p, d) == ids;
  }

  /** Every other connection hears, once for each of its peers, who went. */
  lemma GoingIsTold(config: Config, s: System, e: Event, s': System, p: PeerId, d: Connection)
    returns (news: seq<ServerMessage>, ids: set<PeerId>)
    requires Indexed(s.edge) && Step(config, s, e, s') && Goes(config, s, e, p)
    ensures Over(s.edge.peers, p, d, ids) && |news| == |ids| && Only(news, PeerLeft(p))
    ensures Outbox(s'.out, d) == Outbox(s.out, d) + news
  {
    RemovedGoes(config, s, e, p);
    RemovingStep(config, s, e, s');
    ids := Reached(s.edge.peers, p, d);
    news := Repeat(PeerLeft(p), |ids|);
    RepeatIsOnly(PeerLeft(p), |ids|);
    assert Reached(s'.edge.peers, p, d) == ids;
  }

  /** In every run, a `joined` list holds each peer that is there, with the capabilities of its own join, and nobody else. */
  lemma JoinedListsAnnouncements(config: Config, states: seq<System>, events: seq<Event>, k: nat, p: PeerId)
    returns (list: set<JoinPeer>)
    requires Trace(config, states, events) && k < |events| && Comes(config, states[k], events[k], p)
    ensures var c := states[k].waiting[events[k].ticket].connection;
            Outbox(states[k].out, c) + [Joined(p, list)] <= Outbox(states[k + 1].out, c)
    ensures forall q, i: nat, j: nat | JoinOf(config, states, events, k, q, i, j) ::
              forall x :: JoinPeer(q, x) in list <==> x == events[i].message.protocol
    ensures forall entry | entry in list :: exists i: nat, j: nat :: JoinOf(config, states, events, k, entry.peerId, i, j)
  {
    hide Step, Comes, Goes;
    RunInv(config, states, events, k);
    ComesByTicket(config, states[k], events[k], p);
    var s := states[k];
    var news, ids;
    list, news, ids := ComingIsTold(config, s, events[k], states[k + 1], p, s.waiting[events[k].ticket].connection);
    forall q, i: nat, j: nat | JoinOf(config, states, events, k, q, i, j)
      ensures forall x :: JoinPeer(q, x) in list <==> x == events[i].message.protocol {
      PeerIsAsItJoined(config, states, events, k, q, i, j);
    }
    forall entry | entry in list ensures exists i: nat, j: nat :: JoinOf(config, states, events, k, entry.peerId, i, j) {
      var i, j := EveryPeerJoined(config, states, events, k, entry.peerId);
    }
  }

  // ---------------------------------------------------------------- what is delivered

  /** The connection is joined as the sender that the message names, in this room. */
  predicate Speaks(config: Config, s: System, c: Connection, room: RoomId, from: PeerId) {
    On(s, c, from) && room == config.roomId
  }

  /** A signal of somebody who speaks for itself reaches the one peer it is for, and nobody else. */
  lemma SignalDelivered(config: Config, s: System, e: Event, s': System, d: Connection)
    requires Step(config, s, e, s') && e.SignalReceived?
    requires Speaks(config, s, e.connection, e.signal.roomId, e.signal.fromPeerId)
    ensures var to := e.signal.toPeerId;
            Outbox(s'.out, d) == Outbox(s.out, d) +
              if to in s.edge.peers && s.edge.peers[to].connection == d then [SignalOut(e.signal)] else []
  {
  }

  /** Whether a transport is for the peer: its one target, or everybody but the sender. */
  predicate For(message: TransportMessage, q: PeerId) {
    if message.signal.toPeerId.Some? then q == message.signal.toPeerId.value else q != message.signal.fromPeerId
  }

  /** A connection got a transport once for each peer over it that it is for, and nothing else. */
  ghost predicate Delivered(s: System, message: TransportMessage, d: Connection, s': System,
                            order: seq<PeerId>, frames: seq<ServerMessage>)
  {
    && (forall a, b | 0 <= a < b < |order| :: order[a] != order[b])
    && (forall q :: q in order <==> q in s.edge.peers && s.edge.peers[q].connection == d && For(message, q))
    && Outbox(s'.out, d) == Outbox(s.out, d) + frames
    && Framed(s.edge.peers, message, order, frames)
  }

  /** One frame for each of `order`, in the form of its own session. */
  ghost predicate Framed(peers: map<PeerId, EdgePeer>, message: TransportMessage, order: seq<PeerId>, frames: seq<ServerMessage>)
  {
    && |frames| == |order|
    && (forall q | q in order :: q in peers)
    && forall n | 0 <= n < |order| ::
         frames[n] == TransportOut(SerializeTransport(message, ResolveSession(peers[order[n]].protocol)))
  }

  lemma TransportDelivered(config: Config, s: System, e: Event, s': System, d: Connection)
    returns (order: seq<PeerId>, frames: seq<ServerMessage>)
    requires Step(config, s, e, s') && e.TransportReceived?
    requires Speaks(config, s, e.connection, e.transport.signal.roomId, e.transport.signal.fromPeerId)
    ensures Delivered(s, e.transport, d, s', order, frames)
  {
    hide SerializeTransport, ResolveSession, GotTransport;
    var TransportReceived(c, message) := e;
    if message.signal.toPeerId.Some? {
      var to := message.signal.toPeerId.value;
      order := if to in s.edge.peers && s.edge.peers[to].connection == d then [to] else [];
      frames := if order == [] then [] else [Forwarded(s.edge.peers[to], message)];
    } else {
      order, frames := BroadcastDelivered(config, s, e, s', d);
    }
  }

  lemma BroadcastDelivered(config: Config, s: System, e: Event, s': System, d: Connection)
    returns (order: seq<PeerId>, frames: seq<ServerMessage>)
    requires Step(config, s, e, s') && e.TransportReceived? && e.transport.signal.toPeerId.None?
    requires Speaks(config, s, e.connection, e.transport.signal.roomId, e.transport.signal.fromPeerId)
    ensures Delivered(s, e.transport, d, s', order, frames)
  {
    hide GotTransport, Delivered;
    var ids := Reached(s.edge.peers, Own(s.edge, e.connection), d);
    assert GotTransport(s.edge.peers, ids, e.transport, d, s.out, s'.out);
    order, frames := GotDelivered(s, e.transport, d, s', ids);
  }

  lemma GotDelivered(s: System, message: TransportMessage, d: Connection, s': System, ids: set<PeerId>)
    returns (order: seq<PeerId>, frames: seq<ServerMessage>)
    requires GotTransport(s.edge.peers, ids, message, d, s.out, s'.out)
    requires forall q :: q in ids <==> q in s.edge.peers && s.edge.peers[q].connection == d && For(message, q)
    ensures Delivered(s, message, d, s', order, frames)
  {
    hide SerializeTransport, ResolveSession, ForwardedTo, Framed, Outbox, For;
    order :|
      && InOrder(s.edge.peers, ids, order)
      && Outbox(s'.out, d) == Outbox(s.out, d) + ForwardedTo(s.edge.peers, order, message);
    frames := ForwardedTo(s.edge.peers, order, message);
    OrderIsOnce(ids, order);
    ForwardedEach(s.edge.peers, order, message);
  }

  lemma OrderIsOnce(ids: set<PeerId>, order: seq<PeerId>)
    requires multiset(order) == multiset(ids)
    ensures forall a, b | 0 <= a < b < |order| :: order[a] != order[b]
    ensures forall q :: q in order <==> q in ids
  {
    forall a, b | 0 <= a < b < |order| ensures order[a] != order[b] {
      assert order == order[..a] + [order[a]] + order[a + 1..];
      assert multiset(order) == multiset(order[..a]) + multiset{order[a]} + multiset(order[a + 1..]);
      assert order[b] == order[a + 1..][b - a - 1] && multiset(order[a + 1..])[order[b]] > 0;
      assert multiset(order)[order[a]] == multiset(ids)[order[a]];
    }
    forall q ensures q in order <==> q in ids {
      assert multiset(order)[q] == multiset(ids)[q];
    }
  }

  lemma {:induction false} ForwardedEach(peers: map<PeerId, EdgePeer>, order: seq<PeerId>, message: TransportMessage)
    requires forall p | p in order :: p in peers
    ensures Framed(peers, message, order, ForwardedTo(peers, order, message))
  {
    hide SerializeTransport, ResolveSession;
    if order != [] {
      ForwardedEach(peers, order[..|order| - 1], message);
    }
  }

  /**
   In every run, a transport that came as `received` reaches a peer it is for over the connection of its own join, as a
   frame made for what it announced there: bytes if that was version 2 and MessagePack, read as it was sent exactly if
   JSON can carry the payload of a text frame and bytes passed on are dated or find the clocks equal.
   */
  lemma TransportReachesAsAnnounced(config: Config, states: seq<System>, events: seq<Event>, k: nat, q: PeerId,
                                    i: nat, j: nat, received: Frame, relayClock: real, readerClock: real)
    returns (n: nat, frame: Frame)
    requires Trace(config, states, events) && k < |events| && JoinOf(config, states, events, k, q, i, j)
    requires ParseTransport(received, relayClock).Some?
    requires var message := ParseTransport(received, relayClock).value;
             && events[k].TransportReceived? && events[k].transport == message
             && Speaks(config, states[k], events[k].connection, message.signal.roomId, message.signal.fromPeerId)
             && For(message, q)
    ensures var c := events[i].connection;
            && |Outbox(states[k].out, c)| <= n < |Outbox(states[k + 1].out, c)|
            && Outbox(states[k + 1].out, c)[n] == TransportOut(frame)
    ensures var message, protocol := ParseTransport(received, relayClock).value, events[i].message.protocol;
            var modern := protocol.Some? && protocol.value.maxVersion >= 2;
            var expected := if modern then message.signal else message.signal.(timestamp := readerClock);
            && (frame.Binary? <==> modern && MsgPack in protocol.value.codecs)
            && (ParseSignal(frame, readerClock) == Some(expected) <==>
                 && (frame.TextFrame? ==> JsonSafe(message.signal.payload))
                 && (frame.Binary? && received.Binary? ==> !Undated(received) || relayClock == readerClock))
  {
    hide Step, Comes, Goes, Speaks, For, ParseSignal, JsonSafe, Undated, ParseTransport, SerializeTransport, ResolveSession;
    var s, c, message := states[k], events[i].connection, ParseTransport(received, relayClock).value;
    PeerIsAsItJoined(config, states, events, k, q, i, j);
    var order, frames := TransportDelivered(config, s, events[k], states[k + 1], c);
    var a :| 0 <= a < |order| && order[a] == q;
    n := |Outbox(s.out, c)| + a;
    frame := SerializeTransport(message, ResolveSession(events[i].message.protocol));
    ForwardedReadsAsSent(received, relayClock, events[i].message.protocol, readerClock);
  }

  // ---------------------------------------------------------------- what is refused

  /** What is wrong with a request, if anything is. Of several faults the first counts. */
  function Fault(config: Config, s: System, e: Event): Option<ErrorCode> {
    match e
    case JoinBegun(c, message) =>
      if c in s.edge.byConnection then Some(AlreadyJoined)
      else if message.roomId != config.roomId then Some(RoomMismatch) else None
    case JoinDecided(ticket, allowed) =>
      if ticket !in s.waiting then None
      else if !allowed then Some(AuthFailed)
      else if !HasSpace(config, s.edge.peers, s.waiting[ticket].message.maxPeers) then Some(ErrorCode.RoomFull)
      else if s.waiting[ticket].message.peerId in s.edge.peers then Some(DuplicatePeer) else None
    case LeaveReceived(c, room, peerId) => SpeakerFault(config, s, c, room, peerId)
    case SignalReceived(c, signal) => SpeakerFault(config, s, c, signal.roomId, signal.fromPeerId)
    case TransportReceived(c, transport) => SpeakerFault(config, s, c, transport.signal.roomId, transport.signal.fromPeerId)
    case GarbageReceived(_) => Some(InvalidMessage)
    case _ => None
  }

  function SpeakerFault(config: Config, s: System, c: Connection, room: RoomId, from: PeerId): Option<ErrorCode> {
    if c !in s.edge.byConnection then Some(NotJoined)
    else if !Speaks(config, s, c, room, from) then Some(RoomMismatch) else None
  }

  function Asker(s: System, e: Event): Connection
    requires e.JoinDecided? ==> e.ticket in s.waiting
  {
    if e.JoinDecided? then s.waiting[e.ticket].connection else e.connection
  }

  /** A request at fault changes nobody's membership, and only whoever asked is told, by the one error. */
  lemma FaultIsRefused(config: Config, s: System, e: Event, s': System)
    requires Indexed(s.edge) && Step(config, s, e, s') && Fault(config, s, e).Some?
    ensures s'.edge == s.edge
    ensures forall d :: Outbox(s'.out, d) == Outbox(s.out, d) +
              if d == Asker(s, e) then [ErrorOut(Fault(config, s, e).value)] else []
  {
    hide Step;
    match e
    case JoinDecided(_, _) => JoinRefused(config, s, e, s');
    case TransportReceived(_, _) => TransportRefused(config, s, e, s');
    case _ => OtherRefused(config, s, e, s');
  }

  lemma JoinRefused(config: Config, s: System, e: Event, s': System)
    requires Step(config, s, e, s') && Fault(config, s, e).Some? && e.JoinDecided?
    ensures s'.edge == s.edge
    ensures forall d :: Outbox(s'.out, d) == Outbox(s.out, d) +
              if d == Asker(s, e) then [ErrorOut(Fault(config, s, e).value)] else []
  {
  }

  lemma TransportRefused(config: Config, s: System, e: Event, s': System)
    requires Indexed(s.edge) && Step(config, s, e, s') && Fault(config, s, e).Some? && e.TransportReceived?
    ensures s'.edge == s.edge
    ensures forall d :: Outbox(s'.out, d) == Outbox(s.out, d) +
              if d == Asker(s, e) then [ErrorOut(Fault(config, s, e).value)] else []
  {
    hide Forwarded, GotTransport;
  }

  lemma OtherRefused(config: Config, s: System, e: Event, s': System)
    requires Step(config, s, e, s') && Fault(config, s, e).Some? && !e.JoinDecided? && !e.TransportReceived?
    ensures s'.edge == s.edge
    ensures forall d :: Outbox(s'.out, d) == Outbox(s.out, d) +
              if d == Asker(s, e) then [ErrorOut(Fault(config, s, e).value)] else []
  {
  }

  /** Nothing but a fault is answered with an error. */
  lemma NoOtherErrors(config: Config, s: System, e: Event, s': System, d: Connection)
    requires Indexed(s.edge) && Step(config, s, e, s') && Fault(config, s, e).None?
    ensures Outbox(s.out, d) <= Outbox(s'.out, d)
    ensures forall n | |Outbox(s.out, d)| <= n < |Outbox(s'.out, d)| :: !Outbox(s'.out, d)[n].ErrorOut?
  {
    hide Step, Comes, Goes, HasSpace;
    match e
    case JoinBegun(_, _) => StepTickets(config, s, e, s');
    case JoinDecided(ticket, _) =>
      FaultlessComes(config, s, e, s');
      var list, news, ids := ComingIsTold(config, s, e, s', s.waiting[ticket].message.peerId, d);
    case SignalReceived(_, _) => SignalDelivered(config, s, e, s', d);
    case TransportReceived(_, _) =>
      var order, frames := TransportDelivered(config, s, e, s', d);
    case GarbageReceived(_) =>
    case _ => FaultlessGoes(config, s, e, s', d);
  }

  lemma FaultlessComes(config: Config, s: System, e: Event, s': System)
    requires Step(config, s, e, s') && e.JoinDecided? && Fault(config, s, e).None?
    ensures e.ticket in s.waiting && Comes(config, s, e, s.waiting[e.ticket].message.peerId)
  {
  }

  lemma FaultlessGoes(config: Config, s: System, e: Event, s': System, d: Connection)
    requires Indexed(s.edge) && Step(config, s, e, s') && Fault(config, s, e).None?
    requires e.LeaveReceived? || e.ConnectionErrored? || e.ConnectionClosed?
    ensures Outbox(s.out, d) <= Outbox(s'.out, d)
    ensures forall n | |Outbox(s.out, d)| <= n < |Outbox(s'.out, d)| :: !Outbox(s'.out, d)[n].ErrorOut?
  {
    if e.connection in s.edge.byConnection {
      var news, ids := GoingIsTold(config, s, e, s', Own(s.edge, e.connection), d);
    }
  }
}
