/**
 Any interleaving of the handlers of one edge room, with joins waiting for their authorisation in between. A
 connection that has closed sends nothing more, but a join of its own may still be waiting.
 */
module EdgeRuns {
  import opened RelayTypes
  import opened Values
  import opened Schemas
  import opened WireSchemas
  import opened Protocol
  import opened ProtocolRoundTrips
  import opened EdgeRoom

  datatype Waiting = Waiting(connection: Connection, message: JoinMessage)

  /** `waiting` holds the joins between their two halves, by the number they were given. */
  datatype System = System(edge: EdgeState, out: Outboxes, waiting: map<nat, Waiting>, next: nat, closed: set<Connection>)

  const INITIAL := System(EdgeState(map[], map[]), map[], map[], 0, {})

  datatype Event =
    | JoinBegun(connection: Connection, message: JoinMessage)
    | JoinDecided(ticket: nat, allowed: bool)
    | LeaveReceived(connection: Connection, room: RoomId, peerId: PeerId)
    | ConnectionErrored(connection: Connection)
    | ConnectionClosed(connection: Connection)
    | SignalReceived(connection: Connection, signal: SignalMessage)
    | TransportReceived(connection: Connection, transport: TransportMessage)
    | GarbageReceived(connection: Connection)

  datatype Config = Config(roomId: RoomId, maxRoomSize: Option<Number>)

  ghost predicate Step(config: Config, s: System, e: Event, s': System) {
    if e.JoinDecided? then
      && e.ticket in s.waiting
      && s' == s.(edge := s'.edge, out := s'.out, waiting := s.waiting - {e.ticket})
      && JoinFinished(config.maxRoomSize, s.waiting[e.ticket].connection, s.waiting[e.ticket].message, e.allowed,
                      s.edge, s.out, s'.edge, s'.out)
    else e.connection !in s.closed && StepOfConnection(config, s, e, s')
  }

  ghost predicate StepOfConnection(config: Config, s: System, e: Event, s': System)
    requires !e.JoinDecided?
  {
    match e
    case JoinBegun(c, message) =>
      s' == if c in s.edge.byConnection then s.(out := Send(s.out, c, ErrorOut(AlreadyJoined)))
            else if message.roomId != config.roomId then s.(out := Send(s.out, c, ErrorOut(RoomMismatch)))
            else s.(waiting := s.waiting[s.next := Waiting(c, message)], next := s.next + 1)
    case LeaveReceived(c, room, peerId) =>
      && s' == s.(edge := s'.edge, out := s'.out)
      && LeaveHandled(config.roomId, c, room, peerId, s.edge, s.out, s'.edge, s'.out)
    case ConnectionErrored(c) =>
      s' == s.(edge := s'.edge, out := s'.out) && ConnectionRemoved(c, s.edge, s.out, s'.edge, s'.out)
    case ConnectionClosed(c) =>
      && s' == s.(edge := s'.edge, out := s'.out, closed := s.closed + {c})
      && ConnectionRemoved(c, s.edge, s.out, s'.edge, s'.out)
    case SignalReceived(c, signal) => s' == s.(out := SignalHandled(config.roomId, c, signal, s.edge, s.out))
    case TransportReceived(c, transport) =>
      s' == s.(out := s'.out) && TransportHandled(config.roomId, c, transport, s.edge, s.out, s'.out)
    case GarbageReceived(c) => s' == s.(out := Send(s.out, c, ErrorOut(InvalidMessage)))
  }

  ghost predicate Trace(config: Config, states: seq<System>, events: seq<Event>) {
    && |states| == |events| + 1 && states[0] == INITIAL
    && forall k | 0 <= k < |events| :: Step(config, states[k], events[k], states[k + 1])
  }

  /** The event admits a peer; `Joiner` is its join. */
  predicate Admits(config: Config, s: System, e: Event) {
    && e.JoinDecided? && e.ticket in s.waiting && e.allowed
    && Judge(s.edge.peers, s.waiting[e.ticket].message, config.maxRoomSize) == Admitted
  }

  function Joiner(s: System, e: Event): Waiting
    requires e.JoinDecided? && e.ticket in s.waiting
  {
    s.waiting[e.ticket]
  }

  /** An admission finds its connection not joined meanwhile. The room does not look. */
  predicate AdmitsFresh(config: Config, s: System, e: Event) {
    Admits(config, s, e) ==> Joiner(s, e).connection !in s.edge.byConnection
  }

  /** Nor does it look whether the connection is still there. */
  predicate AdmitsOpen(config: Config, s: System, e: Event) {
    Admits(config, s, e) ==> Joiner(s, e).connection !in s.closed
  }

  // ---------------------------------------------------------------- what a client makes of its control messages

  function Ids(peers: set<JoinPeer>): set<PeerId> {
    set j | j in peers :: j.peerId
  }

  function Apply(view: set<PeerId>, message: ServerMessage): set<PeerId> {
    match message
    case Joined(_, peers) => Ids(peers)
    case PeerJoined(peerId, _) => view + {peerId}
    case PeerLeft(peerId) => view - {peerId}
    case _ => view
  }

  /** The membership a client rebuilds: the last `joined` list, then each `peer-joined` and `peer-left`. */
  function View(messages: seq<ServerMessage>): set<PeerId> {
    if messages == [] then {} else Apply(View(messages[..|messages| - 1]), messages[|messages| - 1])
  }

  lemma ViewSnoc(messages: seq<ServerMessage>, m: ServerMessage)
    ensures View(messages + [m]) == Apply(View(messages), m)
  {
    assert (messages + [m])[..|messages + [m]| - 1] == messages;
  }

  /** Being told the same thing again makes no difference. */
  lemma {:induction false} ViewRepeat(messages: seq<ServerMessage>, m: ServerMessage, n: nat)
    requires m.PeerJoined? || m.PeerLeft?
    ensures View(messages + Repeat(m, n)) == if n == 0 then View(messages) else Apply(View(messages), m)
  {
    if n == 0 {
      assert messages + Repeat(m, n) == messages;
    } else {
      ViewRepeat(messages, m, n - 1);
      assert messages + Repeat(m, n) == messages + Repeat(m, n - 1) + [m];
      ViewSnoc(messages + Repeat(m, n - 1), m);
    }
  }

  /** Errors, signals and transports are not control messages. */
  predicate Quiet(m: ServerMessage) {
    m.ErrorOut? || m.SignalOut? || m.TransportOut?
  }

  lemma {:induction false} ViewQuiet(messages: seq<ServerMessage>, more: seq<ServerMessage>)
    requires forall m | m in more :: Quiet(m)
    ensures View(messages + more) == View(messages)
  {
    if more == [] {
      assert messages + more == messages;
    } else {
      var front := more[..|more| - 1];
      assert more[|more| - 1] in more;
      ViewQuiet(messages, front);
      assert messages + more == messages + front + [more[|more| - 1]];
      ViewSnoc(messages + front, more[|more| - 1]);
    }
  }

  // ---------------------------------------------------------------- what holds in every run

  /** Every joined connection leads to a peer that leads back to it. Not every peer need be led to. */
  ghost predicate Indexed(s: EdgeState) {
    && (forall c | c in s.byConnection ::
          && s.byConnection[c].connection == c
          && s.byConnection[c].peerId in s.peers
          && s.peers[s.byConnection[c].peerId] == s.byConnection[c])
    && (forall p | p in s.peers :: s.peers[p].peerId == p)
  }

  function Own(edge: EdgeState, c: Connection): PeerId
    requires c in edge.byConnection
  {
    edge.byConnection[c].peerId
  }

  /** No other peer of the room has the connection. */
  ghost predicate AloneOn(edge: EdgeState, c: Connection)
    requires c in edge.byConnection
  {
    forall p | p in edge.peers && edge.peers[p].connection == c :: p == Own(edge, c)
  }

  /** What a joined client believes: the truth if it is alone on its connection, and else that it met itself. */
  ghost predicate Believes(edge: EdgeState, out: Outboxes, c: Connection)
    requires c in edge.byConnection
  {
    if AloneOn(edge, c) then View(Outbox(out, c)) == edge.peers.Keys - {Own(edge, c)}
    else Own(edge, c) in View(Outbox(out, c))
  }

  ghost predicate Inv(s: System) {
    Indexed(s.edge) && forall c | c in s.edge.byConnection :: Believes(s.edge, s.out, c)
  }

  lemma ListedPeers(edge: EdgeState)
    requires Indexed(edge)
    ensures Ids(ExistingPeers(edge.peers)) == edge.peers.Keys
  {
    forall p | p in edge.peers ensures p in Ids(ExistingPeers(edge.peers)) {
      assert JoinPeer(edge.peers[p].peerId, edge.peers[p].protocol) in ExistingPeers(edge.peers);
    }
  }

  lemma SomebodyReached(peers: map<PeerId, EdgePeer>, except: PeerId, c: Connection, p: PeerId)
    requires p in peers && p != except && peers[p].connection == c
    ensures |Reached(peers, except, c)| > 0
  {
    assert p in Reached(peers, except, c);
  }

  /** The joiner starts from the list of those there, and hears of itself if its connection has another peer. */
  lemma JoinerBelieves(edge: EdgeState, c: Connection, message: JoinMessage, before: Outboxes, after: Outboxes)
    requires Indexed(edge) && message.peerId !in edge.peers
    requires Broadcast(Admit(edge, c, message).peers, message.peerId, PeerJoined(message.peerId, message.protocol),
                       Send(before, c, Joined(message.peerId, ExistingPeers(edge.peers))), after)
    ensures Believes(Admit(edge, c, message), after, c)
  {
    var edge' := Admit(edge, c, message);
    var joined, told := Joined(message.peerId, ExistingPeers(edge.peers)), PeerJoined(message.peerId, message.protocol);
    var reached := Reached(edge'.peers, message.peerId, c);
    ListedPeers(edge);
    ViewSnoc(Outbox(before, c), joined);
    ViewRepeat(Outbox(before, c) + [joined], told, |reached|);
    if AloneOn(edge', c) {
      assert reached == {};
    } else {
      var p :| p in edge'.peers && edge'.peers[p].connection == c && p != message.peerId;
      SomebodyReached(edge'.peers, message.peerId, c, p);
    }
  }

  /** Everybody else adds the joiner. */
  lemma BystanderBelieves(edge: EdgeState, c: Connection, message: JoinMessage, before: Outboxes, after: Outboxes,
                          d: Connection)
    requires Indexed(edge) && message.peerId !in edge.peers && d in edge.byConnection && d != c
    requires Believes(edge, before, d)
    requires Broadcast(Admit(edge, c, message).peers, message.peerId, PeerJoined(message.peerId, message.protocol),
                       Send(before, c, Joined(message.peerId, ExistingPeers(edge.peers))), after)
    ensures Believes(Admit(edge, c, message), after, d)
  {
    var edge' := Admit(edge, c, message);
    var told := PeerJoined(message.peerId, message.protocol);
    SomebodyReached(edge'.peers, message.peerId, d, Own(edge, d));
    ViewRepeat(Outbox(before, d), told, |Reached(edge'.peers, message.peerId, d)|);
    AloneAfterAdmit(edge, c, message, d);
  }

  lemma AloneAfterAdmit(edge: EdgeState, c: Connection, message: JoinMessage, d: Connection)
    requires message.peerId !in edge.peers && d in edge.byConnection && d != c
    ensures AloneOn(Admit(edge, c, message), d) <==> AloneOn(edge, d)
  {
    var edge' := Admit(edge, c, message);
    forall p | p in edge.peers ensures p in edge'.peers && edge'.peers[p] == edge.peers[p] {
    }
  }

  /** Everybody who stays strikes out the peer that left. */
  lemma StayerBelieves(edge: EdgeState, c: Connection, before: Outboxes, after: Outboxes, d: Connection)
    requires Indexed(edge) && c in edge.byConnection && d in edge.byConnection && d != c
    requires Believes(edge, before, d)
    requires Broadcast(Remove(edge, c).peers, Own(edge, c), PeerLeft(Own(edge, c)), before, after)
    ensures Believes(Remove(edge, c), after, d)
  {
    var edge', gone := Remove(edge, c), Own(edge, c);
    assert Own(edge, d) != gone;
    SomebodyReached(edge'.peers, gone, d, Own(edge, d));
    ViewRepeat(Outbox(before, d), PeerLeft(gone), |Reached(edge'.peers, gone, d)|);
    AloneAfterRemove(edge, c, d);
  }

  lemma AloneAfterRemove(edge: EdgeState, c: Connection, d: Connection)
    requires Indexed(edge) && c in edge.byConnection && d in edge.byConnection && d != c
    ensures AloneOn(Remove(edge, c), d) <==> AloneOn(edge, d)
  {
    var edge' := Remove(edge, c);
    forall p | p in edge.peers && edge.peers[p].connection == d ensures p in edge'.peers && edge'.peers[p] == edge.peers[p] {
    }
  }

  lemma AdmitInv(config: Config, s: System, e: Event, s': System)
    requires Inv(s) && Step(config, s, e, s') && Admits(config, s, e)
    ensures Inv(s')
  {
    var Waiting(c, message) := Joiner(s, e);
    forall d | d in s'.edge.byConnection ensures Believes(s'.edge, s'.out, d) {
      if d == c {
        JoinerBelieves(s.edge, c, message, s.out, s'.out);
      } else {
        BystanderBelieves(s.edge, c, message, s.out, s'.out, d);
      }
    }
  }

  lemma RemoveInv(s: System, c: Connection, s': System)
    requires Inv(s) && c in s.edge.byConnection && ConnectionRemoved(c, s.edge, s.out, s'.edge, s'.out)
    ensures Inv(s')
  {
    forall d | d in s'.edge.byConnection ensures Believes(s'.edge, s'.out, d) {
      StayerBelieves(s.edge, c, s.out, s'.out, d);
    }
  }

  /** A step that leaves the membership as it is and sends no control message. */
  lemma QuietInv(s: System, s': System)
    requires Inv(s) && s'.edge == s.edge
    requires forall c :: View(Outbox(s'.out, c)) == View(Outbox(s.out, c))
    ensures Inv(s')
  {
    forall c | c in s'.edge.byConnection ensures Believes(s'.edge, s'.out, c) {
      assert Believes(s.edge, s.out, c);
    }
  }

  lemma QuietSend(out: Outboxes, c: Connection, m: ServerMessage)
    requires Quiet(m)
    ensures forall d :: View(Outbox(Send(out, c, m), d)) == View(Outbox(out, d))
  {
    ViewSnoc(Outbox(out, c), m);
  }

  lemma QuietTransport(config: Config, s: System, e: Event, s': System)
    requires e.TransportReceived? && Step(config, s, e, s')
    ensures forall d :: View(Outbox(s'.out, d)) == View(Outbox(s.out, d))
  {
    hide Forwarded, Misaddressed;
    var TransportReceived(c, message) := e;
    if c !in s.edge.byConnection {
      QuietSend(s.out, c, ErrorOut(NotJoined));
    } else if Misaddressed(config.roomId, s.edge.byConnection[c], message) {
      QuietSend(s.out, s.edge.byConnection[c].connection, ErrorOut(RoomMismatch));
    } else if message.signal.toPeerId.Some? {
      if message.signal.toPeerId.value in s.edge.peers {
        var target := s.edge.peers[message.signal.toPeerId.value];
        ForwardedIsQuiet(target, message);
        QuietSend(s.out, target.connection, Forwarded(target, message));
      }
    } else {
      forall d ensures View(Outbox(s'.out, d)) == View(Outbox(s.out, d)) {
        GotQuietly(s.edge.peers, Reached(s.edge.peers, Own(s.edge, c), d), message, d, s.out, s'.out);
      }
    }
  }

  lemma ForwardedIsQuiet(peer: EdgePeer, message: TransportMessage)
    ensures Quiet(Forwarded(peer, message))
  {
  }

  lemma GotQuietly(peers: map<PeerId, EdgePeer>, ids: set<PeerId>, message: TransportMessage, d: Connection,
                   before: Outboxes, after: Outboxes)
    requires GotTransport(peers, ids, message, d, before, after)
    ensures View(Outbox(after, d)) == View(Outbox(before, d))
  {
    hide Forwarded;
    var order: seq<PeerId> :|
      InOrder(peers, ids, order) && Outbox(after, d) == Outbox(before, d) + ForwardedTo(peers, order, message);
    ViewQuiet(Outbox(before, d), ForwardedTo(peers, order, message));
  }

  /** Whether the step admits or removes; every other one is quiet. */
  predicate Removes(config: Config, s: System, e: Event) {
    match e
    case LeaveReceived(c, room, peerId) =>
      c in s.edge.byConnection && room == config.roomId && peerId == s.edge.byConnection[c].peerId
    case ConnectionErrored(c) => c in s.edge.byConnection
    case ConnectionClosed(c) => c in s.edge.byConnection
    case _ => false
  }

  lemma QuietDecision(config: Config, s: System, e: Event, s': System)
    requires e.JoinDecided? && Step(config, s, e, s') && !Admits(config, s, e)
    ensures s'.edge == s.edge
    ensures forall d :: View(Outbox(s'.out, d)) == View(Outbox(s.out, d))
  {
    hide View, Judge;
    var Waiting(c, message) := s.waiting[e.ticket];
    QuietSend(s.out, c, ErrorOut(AuthFailed));
    if Judge(s.edge.peers, message, config.maxRoomSize).Refused? {
      QuietSend(s.out, c, ErrorOut(Judge(s.edge.peers, message, config.maxRoomSize).code));
    }
  }

  lemma QuietSignal(config: Config, s: System, e: Event, s': System)
    requires e.SignalReceived? && Step(config, s, e, s')
    ensures s'.edge == s.edge
    ensures forall d :: View(Outbox(s'.out, d)) == View(Outbox(s.out, d))
  {
    hide View;
    var SignalReceived(c, signal) := e;
    QuietSend(s.out, c, ErrorOut(NotJoined));
    QuietSend(s.out, c, ErrorOut(RoomMismatch));
    if signal.toPeerId in s.edge.peers {
      QuietSend(s.out, s.edge.peers[signal.toPeerId].connection, SignalOut(signal));
    }
  }

  lemma QuietStep(config: Config, s: System, e: Event, s': System)
    requires Step(config, s, e, s') && !Admits(config, s, e) && !Removes(config, s, e)
    ensures s'.edge == s.edge
    ensures forall d :: View(Outbox(s'.out, d)) == View(Outbox(s.out, d))
  {
    hide View, Judge;
    match e
    case JoinBegun(c, message) =>
      QuietSend(s.out, c, ErrorOut(AlreadyJoined));
      QuietSend(s.out, c, ErrorOut(RoomMismatch));
    case JoinDecided(_, _) => QuietDecision(config, s, e, s');
    case LeaveReceived(c, room, peerId) =>
      QuietSend(s.out, c, ErrorOut(NotJoined));
      QuietSend(s.out, c, ErrorOut(RoomMismatch));
    case SignalReceived(_, _) => QuietSignal(config, s, e, s');
    case TransportReceived(_, _) => QuietTransport(config, s, e, s');
    case GarbageReceived(c) => QuietSend(s.out, c, ErrorOut(InvalidMessage));
    case _ =>
  }

  lemma RemovingStep(config: Config, s: System, e: Event, s': System)
    requires Step(config, s, e, s') && Removes(config, s, e)
    ensures ConnectionRemoved(e.connection, s.edge, s.out, s'.edge, s'.out) && e.connection in s.edge.byConnection
    ensures s'.edge == Remove(s.edge, e.connection)
  {
  }

  lemma StepInv(config: Config, s: System, e: Event, s': System)
    requires Inv(s) && Step(config, s, e, s')
    ensures Inv(s')
  {
    hide Step;
    if Admits(config, s, e) {
      AdmitInv(config, s, e, s');
    } else if Removes(config, s, e) {
      RemovingStep(config, s, e, s');
      RemoveInv(s, e.connection, s');
    } else {
      QuietStep(config, s, e, s');
      QuietInv(s, s');
    }
  }

  lemma {:induction false} RunInv(config: Config, states: seq<System>, events: seq<Event>, k: nat)
    requires Trace(config, states, events) && k < |states|
    ensures Inv(states[k])
  {
    if k > 0 {
      RunInv(config, states, events, k - 1);
      StepInv(config, states[k - 1], events[k - 1], states[k]);
    }
  }

  /**
   In every run, a joined client's control messages add up to exactly the other peers in the room if and only if no
   other peer has its connection.
   */
  lemma ViewExactly(config: Config, states: seq<System>, events: seq<Event>, k: nat, c: Connection)
    requires Trace(config, states, events) && k < |states|
    requires c in states[k].edge.byConnection
    ensures var s := states[k];
            View(Outbox(s.out, c)) == s.edge.peers.Keys - {Own(s.edge, c)} <==> AloneOn(s.edge, c)
  {
    RunInv(config, states, events, k);
    assert Believes(states[k].edge, states[k].out, c);
  }

  // ---------------------------------------------------------------- peers left behind

  /** The peer is the one its connection leads to. */
  ghost predicate LedTo(edge: EdgeState, p: PeerId)
    requires p in edge.peers
  {
    var c := edge.peers[p].connection;
    c in edge.byConnection && edge.byConnection[c] == edge.peers[p]
  }

  /** Nothing can remove the peer any more: its connection leads elsewhere, or has closed. */
  ghost predicate Ghost(s: System, p: PeerId) {
    p in s.edge.peers && (!LedTo(s.edge, p) || s.edge.peers[p].connection in s.closed)
  }

  ghost predicate NoGhosts(s: System) {
    forall p | p in s.edge.peers :: !Ghost(s, p)
  }

  lemma IndexedInverse(edge: EdgeState)
    requires Indexed(edge)
    ensures Inverse(edge) <==> forall p | p in edge.peers :: LedTo(edge, p)
  {
  }

  /** Admitting a connection that is not joined keeps the indexes inverse; the code does not check that it is not. */
  lemma AdmitInverse(edge: EdgeState, c: Connection, message: JoinMessage)
    requires Inverse(edge) && message.peerId !in edge.peers
    ensures Inverse(Admit(edge, c, message)) <==> c !in edge.byConnection
  {
    var edge' := Admit(edge, c, message);
    if c in edge.byConnection {
      var stale := edge.byConnection[c].peerId;
      assert stale in edge'.peers && edge'.peers[stale] == edge.byConnection[c];
    }
  }

  /** How led-to peers fare in one step: those that are not stay so, and only an admission makes another. */
  lemma StepLedTo(config: Config, s: System, e: Event, s': System)
    requires Indexed(s.edge) && Step(config, s, e, s')
    ensures forall p | p in s.edge.peers && !LedTo(s.edge, p) :: p in s'.edge.peers && !LedTo(s'.edge, p)
    ensures (forall p | p in s'.edge.peers :: LedTo(s'.edge, p)) <==>
            (forall p | p in s.edge.peers :: LedTo(s.edge, p)) && AdmitsFresh(config, s, e)
  {
    hide Step;
    if Admits(config, s, e) {
      AdmitStepEdge(config, s, e, s');
      AdmitLedTo(s.edge, Joiner(s, e).connection, Joiner(s, e).message);
    } else if Removes(config, s, e) {
      RemovingStep(config, s, e, s');
      RemoveLedTo(s.edge, e.connection);
    } else {
      QuietStep(config, s, e, s');
    }
  }

  lemma AdmitStepEdge(config: Config, s: System, e: Event, s': System)
    requires Step(config, s, e, s') && Admits(config, s, e)
    ensures s'.edge == Admit(s.edge, Joiner(s, e).connection, Joiner(s, e).message)
    ensures Joiner(s, e).message.peerId !in s.edge.peers
    ensures s'.closed == s.closed
  {
  }

  lemma AdmitLedTo(edge: EdgeState, c: Connection, message: JoinMessage)
    requires Indexed(edge) && message.peerId !in edge.peers
    ensures var edge' := Admit(edge, c, message);
            && (forall p | p in edge.peers && !LedTo(edge, p) :: p in edge'.peers && !LedTo(edge', p))
            && ((forall p | p in edge'.peers :: LedTo(edge', p)) <==>
                (forall p | p in edge.peers :: LedTo(edge, p)) && c !in edge.byConnection)
  {
    var edge' := Admit(edge, c, message);
    forall p | p in edge.peers ensures p in edge'.peers && edge'.peers[p] == edge.peers[p] && p != message.peerId {
    }
    forall p | p in edge.peers ensures LedTo(edge', p) <==> LedTo(edge, p) && edge.peers[p].connection != c {
    }
    assert message.peerId in edge'.peers && LedTo(edge', message.peerId);
    if c in edge.byConnection {
      assert Own(edge, c) in edge.peers && edge.peers[Own(edge, c)].connection == c;
    }
  }

  lemma RemoveLedTo(edge: EdgeState, c: Connection)
    requires Indexed(edge) && c in edge.byConnection
    ensures var edge' := Remove(edge, c);
            && (forall p | p in edge.peers && !LedTo(edge, p) :: p in edge'.peers && !LedTo(edge', p))
            && ((forall p | p in edge'.peers :: LedTo(edge', p)) <==> (forall p | p in edge.peers :: LedTo(edge, p)))
  {
    var edge' := Remove(edge, c);
    assert LedTo(edge, Own(edge, c));
    forall p | p in edge'.peers ensures LedTo(edge', p) <==> LedTo(edge, p) {
    }
  }

  /** The indexes are inverse after a run if and only if no admission found its connection joined already. */
  lemma {:induction false} InverseExactly(config: Config, states: seq<System>, events: seq<Event>, k: nat)
    requires Trace(config, states, events) && k < |states|
    ensures Inverse(states[k].edge) <==> forall j | 0 <= j < k :: AdmitsFresh(config, states[j], events[j])
  {
    hide AdmitsFresh, Step;
    RunInv(config, states, events, k);
    IndexedInverse(states[k].edge);
    if k > 0 {
      RunInv(config, states, events, k - 1);
      IndexedInverse(states[k - 1].edge);
      InverseExactly(config, states, events, k - 1);
      StepLedTo(config, states[k - 1], events[k - 1], states[k]);
    }
  }

  /** A ghost is there for good. */
  lemma StepGhosts(config: Config, s: System, e: Event, s': System)
    requires Indexed(s.edge) && Step(config, s, e, s')
    ensures forall p | Ghost(s, p) :: Ghost(s', p)
    ensures NoGhosts(s') <==> NoGhosts(s) && AdmitsFresh(config, s, e) && AdmitsOpen(config, s, e)
  {
    hide Step;
    StepLedTo(config, s, e, s');
    StepClosed(config, s, e, s');
    if Admits(config, s, e) {
      AdmitStepEdge(config, s, e, s');
      AdmitGhosts(s, Joiner(s, e), s');
    } else if Removes(config, s, e) {
      RemovingStep(config, s, e, s');
      RemoveGhosts(s, e.connection, s');
    } else {
      QuietStep(config, s, e, s');
      QuietGhosts(s, e, s');
    }
  }

  lemma StepClosed(config: Config, s: System, e: Event, s': System)
    requires Step(config, s, e, s')
    ensures s'.closed == if e.ConnectionClosed? then s.closed + {e.connection} else s.closed
    ensures !e.JoinDecided? ==> e.connection !in s.closed
  {
  }

  lemma AdmitGhosts(s: System, joiner: Waiting, s': System)
    requires Indexed(s.edge) && joiner.message.peerId !in s.edge.peers
    requires s'.edge == Admit(s.edge, joiner.connection, joiner.message) && s'.closed == s.closed
    ensures forall p | Ghost(s, p) :: Ghost(s', p)
    ensures NoGhosts(s') <==>
            NoGhosts(s) && joiner.connection !in s.edge.byConnection && joiner.connection !in s.closed
  {
    var p0 := joiner.message.peerId;
    forall p | p in s.edge.peers ensures p in s'.edge.peers && s'.edge.peers[p] == s.edge.peers[p] && p != p0 {
    }
    forall p | p in s.edge.peers ensures Ghost(s', p) <==> Ghost(s, p) || s.edge.peers[p].connection == joiner.connection {
    }
    assert Ghost(s', p0) <==> joiner.connection in s.closed;
    if joiner.connection in s.edge.byConnection {
      assert Own(s.edge, joiner.connection) in s.edge.peers;
    }
  }

  lemma RemoveGhosts(s: System, c: Connection, s': System)
    requires Indexed(s.edge) && c in s.edge.byConnection && c !in s.closed
    requires s'.edge == Remove(s.edge, c) && s.closed <= s'.closed <= s.closed + {c}
    ensures forall p | Ghost(s, p) :: Ghost(s', p)
    ensures NoGhosts(s') <==> NoGhosts(s)
  {
    assert !Ghost(s, Own(s.edge, c));
    forall p | p in s'.edge.peers ensures Ghost(s', p) <==> Ghost(s, p) {
    }
  }

  lemma QuietGhosts(s: System, e: Event, s': System)
    requires s'.edge == s.edge
    requires s'.closed == if e.ConnectionClosed? then s.closed + {e.connection} else s.closed
    requires e.ConnectionClosed? ==> e.connection !in s.edge.byConnection
    ensures forall p | Ghost(s, p) :: Ghost(s', p)
    ensures NoGhosts(s') <==> NoGhosts(s)
  {
    forall p ensures Ghost(s', p) <==> Ghost(s, p) {
    }
  }

  /**
   After a run every peer has an open connection that leads to it if and only if no admission found its connection
   joined already or closed.
   */
  lemma {:induction false} NoGhostsExactly(config: Config, states: seq<System>, events: seq<Event>, k: nat)
    requires Trace(config, states, events) && k < |states|
    ensures NoGhosts(states[k]) <==>
            forall j | 0 <= j < k :: AdmitsFresh(config, states[j], events[j]) && AdmitsOpen(config, states[j], events[j])
  {
    hide AdmitsFresh, AdmitsOpen, Step;
    if k > 0 {
      RunInv(config, states, events, k - 1);
      NoGhostsExactly(config, states, events, k - 1);
      StepGhosts(config, states[k - 1], events[k - 1], states[k]);
    }
  }

  /** Once a ghost, a peer stays in the room, and every client alone on another connection keeps seeing it. */
  lemma {:induction false} GhostStays(config: Config, states: seq<System>, events: seq<Event>, j: nat, k: nat, p: PeerId)
    requires Trace(config, states, events) && j <= k < |states| && Ghost(states[j], p)
    ensures Ghost(states[k], p) && p in states[k].edge.peers
    ensures forall c | c in states[k].edge.byConnection && AloneOn(states[k].edge, c) && Own(states[k].edge, c) != p ::
              p in View(Outbox(states[k].out, c))
  {
    hide Step;
    RunInv(config, states, events, k);
    if j < k {
      GhostStays(config, states, events, j, k - 1, p);
      RunInv(config, states, events, k - 1);
      StepGhosts(config, states[k - 1], events[k - 1], states[k]);
    }
    forall c | c in states[k].edge.byConnection && AloneOn(states[k].edge, c) && Own(states[k].edge, c) != p
      ensures p in View(Outbox(states[k].out, c))
    {
      assert Believes(states[k].edge, states[k].out, c);
    }
  }

  // ---------------------------------------------------------------- one join at a time

  /** At most one join in flight per connection. The room itself does not insist on it. */
  ghost predicate OneAtATime(s: System, e: Event) {
    e.JoinBegun? ==> forall t | t in s.waiting :: s.waiting[t].connection != e.connection
  }

  ghost predicate WaitingFresh(s: System) {
    && (forall t | t in s.waiting :: t < s.next && s.waiting[t].connection !in s.edge.byConnection)
    && (forall t, u | t in s.waiting && u in s.waiting && t != u :: s.waiting[t].connection != s.waiting[u].connection)
  }

  lemma StepWaiting(config: Config, s: System, e: Event, s': System)
    requires WaitingFresh(s) && Step(config, s, e, s') && OneAtATime(s, e)
    ensures WaitingFresh(s')
  {
    if Admits(config, s, e) {
      AdmitStepEdge(config, s, e, s');
    } else if Removes(config, s, e) {
      RemovingStep(config, s, e, s');
    } else {
      QuietStep(config, s, e, s');
    }
  }

  /** With one join at a time per connection, admissions are fresh; so the indexes are inverse, and views exact. */
  lemma {:induction false} OneAtATimeIsFresh(config: Config, states: seq<System>, events: seq<Event>, k: nat)
    requires Trace(config, states, events) && k < |states|
    requires forall j | 0 <= j < |events| :: OneAtATime(states[j], events[j])
    ensures WaitingFresh(states[k]) && Inverse(states[k].edge)
    ensures forall c | c in states[k].edge.byConnection ::
              View(Outbox(states[k].out, c)) == states[k].edge.peers.Keys - {Own(states[k].edge, c)}
  {
    FreshSoFar(config, states, events, k);
    InverseExactly(config, states, events, k);
    RunInv(config, states, events, k);
    forall c | c in states[k].edge.byConnection
      ensures View(Outbox(states[k].out, c)) == states[k].edge.peers.Keys - {Own(states[k].edge, c)}
    {
      assert Believes(states[k].edge, states[k].out, c);
    }
  }

  lemma {:induction false} FreshSoFar(config: Config, states: seq<System>, events: seq<Event>, k: nat)
    requires Trace(config, states, events) && k < |states|
    requires forall j | 0 <= j < |events| :: OneAtATime(states[j], events[j])
    ensures WaitingFresh(states[k])
    ensures forall j | 0 <= j < k :: AdmitsFresh(config, states[j], events[j])
  {
    hide Step;
    if k > 0 {
      FreshSoFar(config, states, events, k - 1);
      StepWaiting(config, states[k - 1], events[k - 1], states[k]);
      assert AdmitsFresh(config, states[k - 1], events[k - 1]);
    }
  }

  // ---------------------------------------------------------------- room size

  /** A room size limit the room enforces: a positive integer. */
  predicate ValidLimit(config: Config) {
    config.maxRoomSize.Some? && IsInteger(config.maxRoomSize.value) && config.maxRoomSize.value.value > 0.0
  }

  lemma Shrinks(peers: map<PeerId, EdgePeer>, p: PeerId)
    ensures |peers - {p}| <= |peers|
  {
    assert (peers - {p}).Keys == peers.Keys - {p};
  }

  lemma StepSize(config: Config, s: System, e: Event, s': System)
    requires Step(config, s, e, s')
    ensures || |s'.edge.peers| <= |s.edge.peers|
            || (e.JoinDecided? && e.ticket in s.waiting && |s'.edge.peers| == |s.edge.peers| + 1 &&
                 var capacity := ClampRoomCapacity(s.waiting[e.ticket].message.maxPeers, config.maxRoomSize);
                 (capacity.Some? ==> |s'.edge.peers| <= capacity.value))
  {
    hide Step, ClampRoomCapacity;
    if Admits(config, s, e) {
      AdmitStepEdge(config, s, e, s');
      assert s'.edge.peers.Keys == s.edge.peers.Keys + {Joiner(s, e).message.peerId};
      assert |s'.edge.peers.Keys| == |s.edge.peers.Keys| + 1;
    } else if Removes(config, s, e) {
      RemovingStep(config, s, e, s');
      Shrinks(s.edge.peers, Own(s.edge, e.connection));
    } else {
      QuietStep(config, s, e, s');
    }
  }

  lemma ClampIsLowest(config: Config, asked: Option<int>)
    ensures var capacity := ClampRoomCapacity(asked, config.maxRoomSize);
            && (asked.Some? ==> capacity.Some? && capacity.value <= asked.value)
            && (ValidLimit(config) ==> capacity.Some? && capacity.value <= config.maxRoomSize.value.value.Floor)
  {
  }

  lemma {:induction false} RoomWithinLimit(config: Config, states: seq<System>, events: seq<Event>, k: nat)
    requires Trace(config, states, events) && k < |states| && ValidLimit(config)
    ensures |states[k].edge.peers| <= config.maxRoomSize.value.value.Floor
  {
    if k > 0 {
      RoomWithinLimit(config, states, events, k - 1);
      StepSize(config, states[k - 1], events[k - 1], states[k]);
      if events[k - 1].JoinDecided? && events[k - 1].ticket in states[k - 1].waiting {
        ClampIsLowest(config, states[k - 1].waiting[events[k - 1].ticket].message.maxPeers);
      }
    }
  }

  /** In every run the room grows by admitted joins only, one peer each, and never above what the joiner asked for. */
  lemma RoomGrowsWithinRequest(config: Config, states: seq<System>, events: seq<Event>, k: nat)
    requires Trace(config, states, events) && 0 < k < |states|
    requires |states[k].edge.peers| > |states[k - 1].edge.peers|
    ensures events[k - 1].JoinDecided? && events[k - 1].ticket in states[k - 1].waiting
    ensures |states[k].edge.peers| == |states[k - 1].edge.peers| + 1
    ensures var asked := states[k - 1].waiting[events[k - 1].ticket].message.maxPeers;
            asked.Some? ==> |states[k].edge.peers| <= asked.value
  {
    StepSize(config, states[k - 1], events[k - 1], states[k]);
    ClampIsLowest(config, states[k - 1].waiting[events[k - 1].ticket].message.maxPeers);
  }

  // ---------------------------------------------------------------- two runs that leave a peer behind

  /** Nobody but peers on one connection: a broadcast reaches it once for each of them. */
  lemma BroadcastToOne(peers: map<PeerId, EdgePeer>, p: PeerId, except: PeerId, message: ServerMessage, before: Outboxes)
    requires p in peers && p != except && forall q | q in peers :: q == p || q == except
    ensures Broadcast(peers, except, message, before, Send(before, peers[p].connection, message))
  {
    var c, after := peers[p].connection, Send(before, peers[p].connection, message);
    forall d ensures Outbox(after, d) == Outbox(before, d) + Repeat(message, |Reached(peers, except, d)|) {
      if d == c {
        assert Reached(peers, except, d) == {p};
        assert Repeat(message, 1) == Repeat(message, 0) + [message];
      } else {
        assert Reached(peers, except, d) == {};
      }
    }
  }

  lemma BroadcastToNone(peers: map<PeerId, EdgePeer>, except: PeerId, message: ServerMessage, before: Outboxes)
    requires forall q | q in peers :: q == except
    ensures Broadcast(peers, except, message, before, before)
  {
    forall d ensures Outbox(before, d) == Outbox(before, d) + Repeat(message, |Reached(peers, except, d)|) {
      assert Reached(peers, except, d) == {};
    }
  }

  /** A join goes on to its authorisation. */
  lemma WaitsFor(config: Config, s: System, c: Connection, m: JoinMessage, s': System)
    requires c !in s.closed && c !in s.edge.byConnection && m.roomId == config.roomId
    requires s' == s.(waiting := s.waiting[s.next := Waiting(c, m)], next := s.next + 1)
    ensures Step(config, s, JoinBegun(c, m), s')
  {
  }

  /** In an empty room with no limit, a join that waited is admitted, whatever has become of its connection. */
  lemma AdmittedAlone(config: Config, s: System, ticket: nat) returns (s': System)
    requires config.maxRoomSize.None? && s.edge == INITIAL.edge
    requires ticket in s.waiting && s.waiting[ticket].message.maxPeers.None?
    ensures Step(config, s, JoinDecided(ticket, true), s')
    ensures s'.edge == Admit(INITIAL.edge, s.waiting[ticket].connection, s.waiting[ticket].message)
    ensures s'.waiting == s.waiting - {ticket} && s'.closed == s.closed
  {
    var Waiting(c, m) := s.waiting[ticket];
    var edge, out := Admit(INITIAL.edge, c, m), Send(s.out, c, Joined(m.peerId, ExistingPeers(map[])));
    BroadcastToNone(edge.peers, m.peerId, PeerJoined(m.peerId, m.protocol), out);
    s' := s.(edge := edge, out := out, waiting := s.waiting - {ticket});
  }

  /** A run that ends in `s`, one step longer. */
  lemma OneMoreStep(config: Config, states: seq<System>, events: seq<Event>, s: System, e: Event, s': System)
    returns (states': seq<System>, events': seq<Event>)
    requires Trace(config, states, events) && states[|events|] == s && Step(config, s, e, s')
    ensures Trace(config, states', events') && events' == events + [e] && states'[|events'|] == s'
    ensures (forall j | 0 <= j < |events| :: OneAtATime(states[j], events[j])) && OneAtATime(s, e) ==>
              forall j | 0 <= j < |events'| :: OneAtATime(states'[j], events'[j])
  {
    hide Step, OneAtATime;
    states', events' := states + [s'], events + [e];
  }

  lemma ClosedUnjoined(config: Config, s: System, c: Connection, s': System)
    requires c !in s.closed && c !in s.edge.byConnection && s' == s.(closed := s.closed + {c})
    ensures Step(config, s, ConnectionClosed(c), s')
  {
  }

  /**
   A connection closes while its one join waits. The join is admitted all the same, nothing removes its peer after
   that, and no second join was ever in flight.
   */
  lemma CloseWhileWaitingLeavesAGhost(m: JoinMessage, c: Connection)
    requires m.maxPeers.None?
    ensures exists states: seq<System>, events: seq<Event> ::
              && Trace(Config(m.roomId, None), states, events)
              && (forall j | 0 <= j < |events| :: OneAtATime(states[j], events[j]))
              && Ghost(states[|events|], m.peerId)
  {
    var config := Config(m.roomId, None);
    var s1 := INITIAL.(waiting := INITIAL.waiting[0 := Waiting(c, m)], next := 1);
    var s2 := s1.(closed := s1.closed + {c});
    WaitsFor(config, INITIAL, c, m, s1);
    ClosedUnjoined(config, s1, c, s2);
    var s3 := AdmittedAlone(config, s2, 0);
    assert Ghost(s3, m.peerId);
    hide Step, Ghost, Trace, OneAtATime;
    assert Trace(config, [INITIAL], []) by {
      NoSteps(config);
    }
    OneWaits(INITIAL, JoinBegun(c, m));
    OneWaits(s1, ConnectionClosed(c));
    OneWaits(s2, JoinDecided(0, true));
    var t1, e1 := OneMoreStep(config, [INITIAL], [], INITIAL, JoinBegun(c, m), s1);
    var t2, e2 := OneMoreStep(config, t1, e1, s1, ConnectionClosed(c), s2);
    var t3, e3 := OneMoreStep(config, t2, e2, s2, JoinDecided(0, true), s3);
  }

  lemma NoSteps(config: Config)
    ensures Trace(config, [INITIAL], [])
  {
  }

  lemma OneWaits(s: System, e: Event)
    requires e.JoinBegun? ==> s.waiting == map[]
    ensures OneAtATime(s, e)
  {
  }

  /**
   Two joins in flight on one connection are both admitted. When that connection closes, the second peer is removed
   and the first stays.
   */
  lemma TwoJoinsLeaveAGhost(a: JoinMessage, b: JoinMessage, c: Connection)
    requires a.peerId != b.peerId && a.roomId == b.roomId && a.maxPeers.None? && b.maxPeers.None?
    ensures exists states: seq<System>, events: seq<Event> ::
              && Trace(Config(a.roomId, None), states, events)
              && var s := states[|events|];
                 Ghost(s, a.peerId) && b.peerId !in s.edge.peers && s.edge.byConnection == map[]
  {
    var config := Config(a.roomId, None);
    var s1 := INITIAL.(waiting := INITIAL.waiting[0 := Waiting(c, a)], next := 1);
    var s2 := s1.(waiting := s1.waiting[1 := Waiting(c, b)], next := 2);
    WaitsFor(config, INITIAL, c, a, s1);
    WaitsFor(config, s1, c, b, s2);
    var s3 := AdmittedAlone(config, s2, 0);
    assert s3.waiting == map[1 := Waiting(c, b)];
    var s4 := SecondAdmitted(config, a, b, c, s3);
    var s5 := FirstStays(config, a, b, c, s4);
    hide Step, Ghost, Admit, Trace, OneAtATime;
    assert Trace(config, [INITIAL], []) by {
      NoSteps(config);
    }
    var t1, e1 := OneMoreStep(config, [INITIAL], [], INITIAL, JoinBegun(c, a), s1);
    var t2, e2 := OneMoreStep(config, t1, e1, s1, JoinBegun(c, b), s2);
    var t3, e3 := OneMoreStep(config, t2, e2, s2, JoinDecided(0, true), s3);
    var t4, e4 := OneMoreStep(config, t3, e3, s3, JoinDecided(1, true), s4);
    var t5, e5 := OneMoreStep(config, t4, e4, s4, ConnectionClosed(c), s5);
  }

  lemma SecondAdmitted(config: Config, a: JoinMessage, b: JoinMessage, c: Connection, s: System) returns (s': System)
    requires config == Config(a.roomId, None) && b.maxPeers.None? && a.peerId != b.peerId
    requires s.edge == Admit(INITIAL.edge, c, a) && s.waiting == map[1 := Waiting(c, b)] && s.closed == {}
    ensures Step(config, s, JoinDecided(1, true), s')
    ensures s'.edge == Admit(Admit(INITIAL.edge, c, a), c, b) && s'.closed == {}
  {
    var edge, out := Admit(s.edge, c, b), Send(s.out, c, Joined(b.peerId, ExistingPeers(s.edge.peers)));
    var told := PeerJoined(b.peerId, b.protocol);
    BroadcastToOne(edge.peers, a.peerId, b.peerId, told, out);
    s' := s.(edge := edge, out := Send(out, c, told), waiting := map[]);
    assert s.waiting - {1} == s'.waiting;
  }

  lemma FirstStays(config: Config, a: JoinMessage, b: JoinMessage, c: Connection, s: System) returns (s': System)
    requires a.peerId != b.peerId
    requires s.edge == Admit(Admit(INITIAL.edge, c, a), c, b) && s.closed == {}
    ensures Step(config, s, ConnectionClosed(c), s')
    ensures Ghost(s', a.peerId) && b.peerId !in s'.edge.peers && s'.edge.byConnection == map[]
  {
    var edge := Remove(s.edge, c);
    assert edge.byConnection == map[];
    BroadcastToOne(edge.peers, a.peerId, b.peerId, PeerLeft(b.peerId), s.out);
    s' := s.(edge := edge, out := Send(s.out, c, PeerLeft(b.peerId)), closed := s.closed + {c});
  }

  // ---------------------------------------------------------------- what a forwarded transport reads as

  /**
   A transport received in any frame and forwarded to a peer is read there as the signal that was sent, exactly if the
   peer announced version 2 and with the reader's clock if not, if and only if JSON can carry the payload of a text
   frame, and bytes forwarded as they came are dated or find the reader's clock where the relay's was.
   */
  lemma ForwardedReadsAsSent(received: Frame, relayClock: real, protocol: Option<Capabilities>, readerClock: real)
    requires ParseTransport(received, relayClock).Some?
    ensures var message := ParseTransport(received, relayClock).value;
            var sent := SerializeTransport(message, ResolveSession(protocol));
            var modern := protocol.Some? && protocol.value.maxVersion >= 2;
            var expected := if modern then message.signal else message.signal.(timestamp := readerClock);
            && (sent.Binary? <==> modern && MsgPack in protocol.value.codecs)
            && (ParseSignal(sent, readerClock) == Some(expected) <==>
                 && (sent.TextFrame? ==> JsonSafe(message.signal.payload))
                 && (sent.Binary? && received.Binary? ==> !Undated(received) || relayClock == readerClock))
  {
    hide NormalizeEnvelope, Envelope, JsonSafe, Undated;
    var message := ParseTransport(received, relayClock).value;
    ParsedIsNormalized(received, relayClock);
    TransportRoundTrip(message.signal, protocol, readerClock);
    if received.Binary? {
      ShortcutAgrees(received, relayClock, readerClock);
    }
  }
}
