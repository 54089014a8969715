/**
 One room held in memory, with an index by peer id and one by connection. A join is two synchronous stretches
 around the wait for its authorisation; every other handler is one.
 */
module EdgeRoom {
  import opened RelayTypes
  import opened Values
  import opened Schemas
  import opened Protocol

  type Connection = nat

  datatype EdgePeer = EdgePeer(peerId: PeerId, connection: Connection, protocol: Option<Capabilities>)

  datatype JoinMessage = JoinMessage(roomId: RoomId, peerId: PeerId, protocol: Option<Capabilities>, maxPeers: Option<int>)

  datatype SignalMessage = SignalMessage(roomId: RoomId, fromPeerId: PeerId, toPeerId: PeerId)

  datatype ErrorCode = InvalidMessage | NotJoined | RoomMismatch | AlreadyJoined | AuthFailed | RoomFull | DuplicatePeer

  datatype ServerMessage =
    | Joined(peerId: PeerId, peers: set<JoinPeer>)
    | PeerJoined(peerId: PeerId, protocol: Option<Capabilities>)
    | PeerLeft(peerId: PeerId)
    | SignalOut(signal: SignalMessage)
    | TransportOut(frame: Frame)
    | ErrorOut(code: ErrorCode)

  type Outboxes = map<Connection, seq<ServerMessage>>

  function Outbox(outboxes: Outboxes, c: Connection): seq<ServerMessage> {
    if c in outboxes then outboxes[c] else []
  }

  function Send(outboxes: Outboxes, c: Connection, message: ServerMessage): Outboxes {
    outboxes[c := Outbox(outboxes, c) + [message]]
  }

  datatype EdgeState = EdgeState(peers: map<PeerId, EdgePeer>, byConnection: map<Connection, EdgePeer>)

  /** Each index is the inverse of the other. */
  ghost predicate Inverse(s: EdgeState) {
    && (forall c | c in s.byConnection ::
          && s.byConnection[c].connection == c
          && s.byConnection[c].peerId in s.peers
          && s.peers[s.byConnection[c].peerId] == s.byConnection[c])
    && (forall p | p in s.peers ::
          && s.peers[p].peerId == p
          && s.peers[p].connection in s.byConnection
          && s.byConnection[s.peers[p].connection] == s.peers[p])
  }

  function ClampRoomCapacity(requested: Option<int>, maxRoomSize: Option<Number>): Option<int> {
    if maxRoomSize.None? || !IsInteger(maxRoomSize.value) || maxRoomSize.value.value <= 0.0 then requested
    else
      var limit := maxRoomSize.value.value.Floor;
      if requested.None? then Some(limit) else Some(if requested.value <= limit then requested.value else limit)
  }

  /** Peers of `peers` other than `except` that are reached over connection `c`. */
  function Reached(peers: map<PeerId, EdgePeer>, except: PeerId, c: Connection): set<PeerId> {
    set p | p in peers && p != except && peers[p].connection == c
  }

  function Repeat(message: ServerMessage, n: nat): (r: seq<ServerMessage>)
    ensures |r| == n
  {
    if n == 0 then [] else Repeat(message, n - 1) + [message]
  }

  /** Every peer but one gets the message, once per peer. */
  ghost predicate Broadcast(peers: map<PeerId, EdgePeer>, except: PeerId, message: ServerMessage, before: Outboxes, after: Outboxes) {
    forall c :: Outbox(after, c) == Outbox(before, c) + Repeat(message, |Reached(peers, except, c)|)
  }

  ghost predicate SentSoFar(peers: map<PeerId, EdgePeer>, except: PeerId, todo: set<PeerId>, message: ServerMessage,
                            before: Outboxes, after: Outboxes)
  {
    forall c :: Outbox(after, c) == Outbox(before, c) + Repeat(message, |Reached(peers, except, c) - todo|)
  }

  lemma NothingSent(peers: map<PeerId, EdgePeer>, except: PeerId, message: ServerMessage, outboxes: Outboxes)
    ensures SentSoFar(peers, except, peers.Keys, message, outboxes, outboxes)
  {
    forall c ensures Outbox(outboxes, c) == Outbox(outboxes, c) + Repeat(message, |Reached(peers, except, c) - peers.Keys|) {
      assert Reached(peers, except, c) - peers.Keys == {};
    }
  }

  lemma AllSent(peers: map<PeerId, EdgePeer>, except: PeerId, message: ServerMessage, before: Outboxes, after: Outboxes)
    requires SentSoFar(peers, except, {}, message, before, after)
    ensures Broadcast(peers, except, message, before, after)
  {
    forall c ensures Outbox(after, c) == Outbox(before, c) + Repeat(message, |Reached(peers, except, c)|) {
      assert Reached(peers, except, c) - {} == Reached(peers, except, c);
    }
  }

  lemma OneMoreSent(peers: map<PeerId, EdgePeer>, except: PeerId, todo: set<PeerId>, p: PeerId, message: ServerMessage,
                    start: Outboxes, before: Outboxes, after: Outboxes)
    requires p in todo && todo <= peers.Keys
    requires SentSoFar(peers, except, todo, message, start, before)
    requires after == if p != except then Send(before, peers[p].connection, message) else before
    ensures SentSoFar(peers, except, todo - {p}, message, start, after)
  {
    forall c ensures Outbox(after, c) == Outbox(start, c) + Repeat(message, |Reached(peers, except, c) - (todo - {p})|) {
      OneFewerToReach(peers, except, todo, p, c);
      var n := |Reached(peers, except, c) - todo|;
      assert Outbox(before, c) == Outbox(start, c) + Repeat(message, n);
      assert Repeat(message, n + 1) == Repeat(message, n) + [message];
      assert Outbox(start, c) + Repeat(message, n) + [message] == Outbox(start, c) + (Repeat(message, n) + [message]);
    }
  }

  lemma OneFewerToReach(peers: map<PeerId, EdgePeer>, except: PeerId, todo: set<PeerId>, p: PeerId, c: Connection)
    requires p in todo && todo <= peers.Keys
    ensures |Reached(peers, except, c) - (todo - {p})| ==
            |Reached(peers, except, c) - todo| + if p != except && peers[p].connection == c then 1 else 0
  {
    var reached := Reached(peers, except, c);
    if p in reached {
      assert reached - (todo - {p}) == (reached - todo) + {p};
    } else {
      assert reached - (todo - {p}) == reached - todo;
    }
  }

  function ExistingPeers(peers: map<PeerId, EdgePeer>): set<JoinPeer> {
    set p | p in peers :: JoinPeer(peers[p].peerId, peers[p].protocol)
  }

  datatype Verdict = Admitted | Refused(code: ErrorCode)

  /** What the part of a join after the authorisation decides. */
  function Judge(peers: map<PeerId, EdgePeer>, message: JoinMessage, maxRoomSize: Option<Number>): Verdict {
    var capacity := ClampRoomCapacity(message.maxPeers, maxRoomSize);
    if capacity.Some? && |peers| >= capacity.value then Refused(RoomFull)
    else if message.peerId in peers then Refused(DuplicatePeer)
    else Admitted
  }

  function Admit(s: EdgeState, c: Connection, message: JoinMessage): EdgeState {
    var peer := EdgePeer(message.peerId, c, message.protocol);
    EdgeState(s.peers[message.peerId := peer], s.byConnection[c := peer])
  }

  function Remove(s: EdgeState, c: Connection): EdgeState
    requires c in s.byConnection
  {
    EdgeState(s.peers - {s.byConnection[c].peerId}, s.byConnection - {c})
  }

  /** The second half of a join, seen from outside. */
  ghost predicate JoinFinished(maxRoomSize: Option<Number>, c: Connection, message: JoinMessage, allowed: bool,
                               s: EdgeState, out: Outboxes, s': EdgeState, out': Outboxes)
  {
    if !allowed then s' == s && out' == Send(out, c, ErrorOut(AuthFailed))
    else
      match Judge(s.peers, message, maxRoomSize)
      case Refused(code) => s' == s && out' == Send(out, c, ErrorOut(code))
      case Admitted =>
        && s' == Admit(s, c, message)
        && Broadcast(s'.peers, message.peerId, PeerJoined(message.peerId, message.protocol),
                     Send(out, c, Joined(message.peerId, ExistingPeers(s.peers))), out')
  }

  ghost predicate ConnectionRemoved(c: Connection, s: EdgeState, out: Outboxes, s': EdgeState, out': Outboxes) {
    if c !in s.byConnection then s' == s && out' == out
    else
      var peerId := s.byConnection[c].peerId;
      s' == Remove(s, c) && Broadcast(s'.peers, peerId, PeerLeft(peerId), out, out')
  }

  ghost predicate LeaveHandled(roomId: RoomId, c: Connection, messageRoom: RoomId, peerId: PeerId,
                               s: EdgeState, out: Outboxes, s': EdgeState, out': Outboxes)
  {
    if c !in s.byConnection then s' == s && out' == Send(out, c, ErrorOut(NotJoined))
    else if messageRoom != roomId || peerId != s.byConnection[c].peerId then s' == s && out' == Send(out, c, ErrorOut(RoomMismatch))
    else ConnectionRemoved(c, s, out, s', out')
  }

  function SignalHandled(roomId: RoomId, c: Connection, message: SignalMessage, s: EdgeState, out: Outboxes): Outboxes {
    if c !in s.byConnection then Send(out, c, ErrorOut(NotJoined))
    else if message.roomId != roomId || message.fromPeerId != s.byConnection[c].peerId then Send(out, c, ErrorOut(RoomMismatch))
    else if message.toPeerId in s.peers then Send(out, s.peers[message.toPeerId].connection, SignalOut(message))
    else out
  }

  predicate Misaddressed(roomId: RoomId, peer: EdgePeer, message: TransportMessage) {
    message.signal.roomId != roomId || message.signal.fromPeerId != peer.peerId
  }

  function Forwarded(peer: EdgePeer, message: TransportMessage): ServerMessage {
    TransportOut(SerializeTransport(message, ResolveSession(peer.protocol)))
  }

  function Forward(outboxes: Outboxes, peer: EdgePeer, message: TransportMessage): Outboxes {
    Send(outboxes, peer.connection, Forwarded(peer, message))
  }

  /** What a connection gets when a transport goes to `ids` in this order. */
  function ForwardedTo(peers: map<PeerId, EdgePeer>, ids: seq<PeerId>, message: TransportMessage): (r: seq<ServerMessage>)
    requires forall p | p in ids :: p in peers
    ensures forall m | m in r :: m.TransportOut?
  {
    if ids == [] then []
    else ForwardedTo(peers, ids[..|ids| - 1], message) + [Forwarded(peers[ids[|ids| - 1]], message)]
  }

  /** The peers `ids`, one after the other. */
  ghost predicate InOrder(peers: map<PeerId, EdgePeer>, ids: set<PeerId>, order: seq<PeerId>) {
    multiset(order) == multiset(ids) && forall p | p in order :: p in peers
  }

  /** Between `before` and `after`, `c` got the transport once for each of `ids`, in some order. */
  ghost predicate GotTransport(peers: map<PeerId, EdgePeer>, ids: set<PeerId>, message: TransportMessage, c: Connection,
                               before: Outboxes, after: Outboxes)
  {
    exists order: seq<PeerId> ::
      InOrder(peers, ids, order) && Outbox(after, c) == Outbox(before, c) + ForwardedTo(peers, order, message)
  }

  lemma NoTransportYet(peers: map<PeerId, EdgePeer>, message: TransportMessage, c: Connection, before: Outboxes)
    ensures GotTransport(peers, {}, message, c, before, before)
  {
    var order: seq<PeerId> := [];
    assert InOrder(peers, {}, order);
    assert Outbox(before, c) == Outbox(before, c) + ForwardedTo(peers, order, message);
  }

  lemma OneMoreTransport(peers: map<PeerId, EdgePeer>, ids: set<PeerId>, p: PeerId, message: TransportMessage,
                         c: Connection, start: Outboxes, before: Outboxes)
    requires GotTransport(peers, ids, message, c, start, before)
    requires p in peers && p !in ids && peers[p].connection == c
    ensures GotTransport(peers, ids + {p}, message, c, start, Forward(before, peers[p], message))
  {
    hide Forwarded, ForwardedTo, Outbox, Send;
    var order: seq<PeerId> :|
      InOrder(peers, ids, order) && Outbox(before, c) == Outbox(start, c) + ForwardedTo(peers, order, message);
    LongerOrder(peers, ids, order, p, message);
    SentOneMore(before, c, Forwarded(peers[p], message), Outbox(start, c), ForwardedTo(peers, order, message));
    assert InOrder(peers, ids + {p}, order + [p]);
  }

  lemma LongerOrder(peers: map<PeerId, EdgePeer>, ids: set<PeerId>, order: seq<PeerId>, p: PeerId,
                    message: TransportMessage)
    requires InOrder(peers, ids, order) && p !in ids && p in peers
    ensures InOrder(peers, ids + {p}, order + [p])
    ensures ForwardedTo(peers, order + [p], message) ==
            ForwardedTo(peers, order, message) + [Forwarded(peers[p], message)]
  {
    hide Forwarded;
    var longer := order + [p];
    assert longer[..|longer| - 1] == order && longer[|longer| - 1] == p;
  }

  lemma SentOneMore(before: Outboxes, c: Connection, m: ServerMessage, start: seq<ServerMessage>, so: seq<ServerMessage>)
    requires Outbox(before, c) == start + so
    ensures Outbox(Send(before, c, m), c) == start + (so + [m])
  {
  }

  /** A transport for one peer, or for all but the sender; each gets it in the form its own session reads. */
  ghost predicate TransportHandled(roomId: RoomId, c: Connection, message: TransportMessage,
                                   s: EdgeState, out: Outboxes, out': Outboxes)
  {
    if c !in s.byConnection then out' == Send(out, c, ErrorOut(NotJoined))
    else if Misaddressed(roomId, s.byConnection[c], message) then out' == Send(out, s.byConnection[c].connection, ErrorOut(RoomMismatch))
    else if message.signal.toPeerId.Some? then
      out' == if message.signal.toPeerId.value in s.peers
              then Forward(out, s.peers[message.signal.toPeerId.value], message) else out
    else
      forall d :: GotTransport(s.peers, Reached(s.peers, s.byConnection[c].peerId, d), message, d, out, out')
  }

  class EdgeRoom {
    const roomId: RoomId
    const maxRoomSize: Option<Number>
    var peers: map<PeerId, EdgePeer>
    var peersByConnection: map<Connection, EdgePeer>
    var outboxes: Outboxes
    var closed: set<Connection>

    function Abs(): EdgeState
      reads this
    {
      EdgeState(peers, peersByConnection)
    }

    constructor (roomId: RoomId, maxRoomSize: Option<Number>)
      ensures this.roomId == roomId && this.maxRoomSize == maxRoomSize
      ensures Abs() == EdgeState(map[], map[]) && outboxes == map[] && closed == {}
    {
      this.roomId, this.maxRoomSize := roomId, maxRoomSize;
      peers, peersByConnection, outboxes, closed := map[], map[], map[], {};
    }

    method BroadcastControl(message: ServerMessage, except: PeerId)
      modifies this`outboxes
      ensures Broadcast(peers, except, message, old(outboxes), outboxes)
    {
      var todo := peers.Keys;
      NothingSent(peers, except, message, outboxes);
      while todo != {}
        invariant todo <= peers.Keys
        invariant SentSoFar(peers, except, todo, message, old(outboxes), outboxes)
      {
        var p :| p in todo;
        ghost var before := outboxes;
        if p != except {
          outboxes := Send(outboxes, peers[p].connection, message);
        }
        OneMoreSent(peers, except, todo, p, message, old(outboxes), before, outboxes);
        todo := todo - {p};
      }
      AllSent(peers, except, message, old(outboxes), outboxes);
    }

    /** The first half of `join`: whether it goes on to authorisation, and if not, what the connection is told. */
    method BeginJoin(c: Connection, message: JoinMessage) returns (asks: bool)
      modifies this`outboxes
      ensures asks <==> c !in peersByConnection && message.roomId == roomId
      ensures outboxes == if c in peersByConnection then Send(old(outboxes), c, ErrorOut(AlreadyJoined))
                          else if message.roomId != roomId then Send(old(outboxes), c, ErrorOut(RoomMismatch))
                          else old(outboxes)
    {
      if c in peersByConnection {
        outboxes := Send(outboxes, c, ErrorOut(AlreadyJoined));
        return false;
      }
      if message.roomId != roomId {
        outboxes := Send(outboxes, c, ErrorOut(RoomMismatch));
        return false;
      }
      asks := true;
    }

    /** The second half of `join`. The connection is not looked up again. */
    method FinishJoin(c: Connection, message: JoinMessage, allowed: bool)
      modifies this
      ensures JoinFinished(maxRoomSize, c, message, allowed, old(Abs()), old(outboxes), Abs(), outboxes)
      ensures closed == if allowed then old(closed) else old(closed) + {c}
    {
      if !allowed {
        outboxes := Send(outboxes, c, ErrorOut(AuthFailed));
        closed := closed + {c};
        return;
      }
      var capacity := ClampRoomCapacity(message.maxPeers, maxRoomSize);
      if capacity.Some? && |peers| >= capacity.value {
        outboxes := Send(outboxes, c, ErrorOut(RoomFull));
        return;
      }
      if message.peerId in peers {
        outboxes := Send(outboxes, c, ErrorOut(DuplicatePeer));
        return;
      }
      var existing := ExistingPeers(peers);
      var peer := EdgePeer(message.peerId, c, message.protocol);
      peers := peers[message.peerId := peer];
      peersByConnection := peersByConnection[c := peer];
      outboxes := Send(outboxes, c, Joined(message.peerId, existing));
      BroadcastControl(PeerJoined(message.peerId, message.protocol), message.peerId);
    }

    method RemoveConnection(c: Connection)
      modifies this
      ensures closed == old(closed)
      ensures ConnectionRemoved(c, old(Abs()), old(outboxes), Abs(), outboxes)
    {
      if c !in peersByConnection {
        return;
      }
      var peer := peersByConnection[c];
      peersByConnection := peersByConnection - {c};
      peers := peers - {peer.peerId};
      BroadcastControl(PeerLeft(peer.peerId), peer.peerId);
    }

    method HandleLeave(c: Connection, messageRoom: RoomId, peerId: PeerId)
      modifies this
      ensures closed == old(closed)
      ensures LeaveHandled(roomId, c, messageRoom, peerId, old(Abs()), old(outboxes), Abs(), outboxes)
    {
      if c !in peersByConnection {
        outboxes := Send(outboxes, c, ErrorOut(NotJoined));
        return;
      }
      if messageRoom != roomId || peerId != peersByConnection[c].peerId {
        outboxes := Send(outboxes, c, ErrorOut(RoomMismatch));
        return;
      }
      RemoveConnection(c);
    }

    method HandleSignal(c: Connection, message: SignalMessage)
      modifies this`outboxes
      ensures outboxes == SignalHandled(roomId, c, message, Abs(), old(outboxes))
    {
      if c !in peersByConnection {
        outboxes := Send(outboxes, c, ErrorOut(NotJoined));
        return;
      }
      if message.roomId != roomId || message.fromPeerId != peersByConnection[c].peerId {
        outboxes := Send(outboxes, c, ErrorOut(RoomMismatch));
        return;
      }
      if message.toPeerId in peers {
        outboxes := Send(outboxes, peers[message.toPeerId].connection, SignalOut(message));
      }
    }

    method HandleTransport(c: Connection, message: TransportMessage)
      modifies this`outboxes
      ensures TransportHandled(roomId, c, message, Abs(), old(outboxes), outboxes)
    {
      if c !in peersByConnection {
        outboxes := Send(outboxes, c, ErrorOut(NotJoined));
        return;
      }
      var peer := peersByConnection[c];
      if Misaddressed(roomId, peer, message) {
        outboxes := Send(outboxes, peer.connection, ErrorOut(RoomMismatch));
        return;
      }
      if message.signal.toPeerId.Some? {
        if message.signal.toPeerId.value in peers {
          outboxes := Forward(outboxes, peers[message.signal.toPeerId.value], message);
        }
        return;
      }
      var todo := peers.Keys;
      forall d ensures GotTransport(peers, Reached(peers, peer.peerId, d) - todo, message, d, outboxes, outboxes) {
        assert Reached(peers, peer.peerId, d) - todo == {};
        NoTransportYet(peers, message, d, outboxes);
      }
      while todo != {}
        invariant todo <= peers.Keys
        invariant forall d ::
                    GotTransport(peers, Reached(peers, peer.peerId, d) - todo, message, d, old(outboxes), outboxes)
      {
        var p :| p in todo;
        ghost var before := outboxes;
        if p != peer.peerId {
          outboxes := Forward(outboxes, peers[p], message);
        }
        forall d
          ensures GotTransport(peers, Reached(peers, peer.peerId, d) - (todo - {p}), message, d, old(outboxes), outboxes)
        {
          TransportProgress(peers, peer.peerId, todo, p, message, d, old(outboxes), before);
        }
        todo := todo - {p};
      }
      forall d ensures GotTransport(peers, Reached(peers, peer.peerId, d), message, d, old(outboxes), outboxes) {
        assert Reached(peers, peer.peerId, d) - todo == Reached(peers, peer.peerId, d);
      }
    }
  }

  lemma TransportProgress(peers: map<PeerId, EdgePeer>, sender: PeerId, todo: set<PeerId>, p: PeerId,
                          message: TransportMessage, d: Connection, start: Outboxes, before: Outboxes)
    requires p in todo && todo <= peers.Keys
    requires GotTransport(peers, Reached(peers, sender, d) - todo, message, d, start, before)
    ensures var after := if p != sender then Forward(before, peers[p], message) else before;
            GotTransport(peers, Reached(peers, sender, d) - (todo - {p}), message, d, start, after)
  {
    hide GotTransport, Forwarded;
    var reached := Reached(peers, sender, d);
    if p in reached {
      assert reached - (todo - {p}) == (reached - todo) + {p};
      OneMoreTransport(peers, reached - todo, p, message, d, start, before);
    } else {
      assert reached - (todo - {p}) == reached - todo;
      var after := if p != sender then Forward(before, peers[p], message) else before;
      NoMoreTransport(peers, reached - todo, message, d, start, before, after);
    }
  }

  lemma NoMoreTransport(peers: map<PeerId, EdgePeer>, ids: set<PeerId>, message: TransportMessage, d: Connection,
                        start: Outboxes, before: Outboxes, after: Outboxes)
    requires GotTransport(peers, ids, message, d, start, before) && Outbox(after, d) == Outbox(before, d)
    ensures GotTransport(peers, ids, message, d, start, after)
  {
    hide Forwarded, ForwardedTo, Outbox;
  }
}
