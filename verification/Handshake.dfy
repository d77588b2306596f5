/** A client host and a server host over a network that loses, repeats and reorders their CONNECT and VERIFY_CONNECT. */
module Handshake {
  import opened Arithmetic
  import opened Connections
  import opened Wrappers

  /** How often a slot has been taken tells its uses apart; configured: its throttle has been set since. */
  datatype Slot = Slot(peer: Peer, incarnation: nat, configured: bool)

  /** An answer on its way to the client's slot to, from one use of the server's slot verify.outgoingPeerID. */
  datatype Reply = Reply(to: nat, incarnation: nat, verify: VerifyCommand)

  /** accepted is the answer that a client's peer has taken; configured: its throttle has been set since. */
  datatype Client = Client(peer: Peer, accepted: Option<Reply>, configured: bool)

  datatype System = System(clients: seq<Client>, servers: seq<Slot>, connects: set<ConnectCommand>, replies: set<Reply>)

  /** What the two hosts do not change while they run. */
  datatype Setting = Setting(clientMtu: nat, serverMtu: nat)

  ghost predicate GoodSetting(g: Setting) {
    MINIMUM_MTU <= g.clientMtu <= MAXIMUM_MTU && MINIMUM_MTU <= g.serverMtu <= MAXIMUM_MTU
  }

  ghost predicate ClientStarts(s: System, s': System, g: Setting, i: nat, address: nat, channelCount: nat, connectID: nat) {
    && i < |s.clients| && s.clients[i].peer.state == Disconnected
    && MINIMUM_CHANNEL_COUNT <= channelCount <= MAXIMUM_CHANNEL_COUNT
    && var p := Started(s.clients[i].peer, g.clientMtu, address, channelCount, connectID);
    && s'.clients == s.clients[i := Client(p, None, false)]
    && (exists c {:trigger c in s'.connects} :: s'.connects == s.connects + {c}
          && c.mtu == g.clientMtu && c.connectID == connectID && c.outgoingPeerID == i)
    && s' == s.(clients := s'.clients, connects := s'.connects)
  }

  /** limit, incoming and outgoing are the server's channel limit and bandwidths, which may change at any time. */
  ghost predicate ServerAccepts(s: System, s': System, g: Setting, j: nat, c: ConnectCommand, address: nat, limit: nat, incoming: nat, outgoing: nat) {
    && j < |s.servers| && s.servers[j].peer.state == Disconnected && c in s.connects
    && MINIMUM_CHANNEL_COUNT <= c.channelCount <= MAXIMUM_CHANNEL_COUNT
    && var p, n := Accepted(s.servers[j].peer, g.serverMtu, limit, c, address), s.servers[j].incarnation + 1;
    && s' == s.(servers := s.servers[j := Slot(p, n, false)],
                replies := s.replies + {Reply(c.outgoingPeerID, n, Answer(p, j, incoming, outgoing))})
  }

  /** enet_protocol_handle_verify_connect for a copy of an answer; event as for NotifyConnect. */
  ghost predicate ClientVerifies(s: System, s': System, i: nat, r: Reply, event: bool) {
    && i < |s.clients| && r in s.replies && r.to == i && s.clients[i].peer.state == Connecting
    && var p := s.clients[i].peer;
    && s' == s.(clients := s.clients[i :=
         if Answers(p, r.verify) then Client(Verified(p, r.verify).(state := if event then Connected else ConnectionSucceeded), Some(r), false)
         else Client(p.(state := Zombie), None, false)])
  }

  /** Anything else that happens to a client's peer: it never becomes established by it. */
  ghost predicate ClientMoves(s: System, s': System, i: nat, p: Peer) {
    && i < |s.clients| && MovesOnly(s.clients[i].peer, p)
    && (Established(p) ==> Established(s.clients[i].peer))
    && s' == s.(clients := s.clients[i := s.clients[i].(peer := p)])
  }

  ghost predicate ServerMoves(s: System, s': System, j: nat, p: Peer) {
    && j < |s.servers| && MovesOnly(s.servers[j].peer, p)
    && s' == s.(servers := s.servers[j := s.servers[j].(peer := p)])
  }

  /** enet_peer_throttle_configure, or the other side's command about it. */
  ghost predicate ClientConfigures(s: System, s': System, i: nat, t: Throttle) {
    && i < |s.clients|
    && s' == s.(clients := s.clients[i := s.clients[i].(peer := s.clients[i].peer.(throttle := t), configured := true)])
  }

  ghost predicate ServerConfigures(s: System, s': System, j: nat, t: Throttle) {
    && j < |s.servers|
    && s' == s.(servers := s.servers[j := s.servers[j].(peer := s.servers[j].peer.(throttle := t), configured := true)])
  }

  ghost predicate Next(s: System, s': System, g: Setting) {
    || s' == s
    || (exists i, address, channelCount, connectID :: ClientStarts(s, s', g, i, address, channelCount, connectID))
    || (exists j, c, address, limit, incoming, outgoing :: ServerAccepts(s, s', g, j, c, address, limit, incoming, outgoing))
    || (exists i, r, event :: ClientVerifies(s, s', i, r, event))
    || (exists i, p :: ClientMoves(s, s', i, p))
    || (exists j, p :: ServerMoves(s, s', j, p))
    || (exists i, t :: ClientConfigures(s, s', i, t))
    || (exists j, t :: ServerConfigures(s, s', j, t))
  }

  /** The server's slot is still the one that gave this answer. */
  ghost predicate StillHolds(s: System, r: Reply) {
    && r.verify.outgoingPeerID < |s.servers|
    && s.servers[r.verify.outgoingPeerID].incarnation == r.incarnation
    && s.servers[r.verify.outgoingPeerID].peer.state != Disconnected
  }

  ghost predicate ReplyOk(s: System, g: Setting, r: Reply) {
    && r.verify.outgoingPeerID < |s.servers| && r.incarnation <= s.servers[r.verify.outgoingPeerID].incarnation
    && r.verify.mtu == Min(g.serverMtu, g.clientMtu)
    && (StillHolds(s, r) ==>
         var p := s.servers[r.verify.outgoingPeerID].peer;
         && p.connectID == r.verify.connectID && p.mtu == r.verify.mtu
         && p.outgoingSessionID == r.verify.incomingSessionID && p.incomingSessionID == r.verify.outgoingSessionID
         && (Serving(p) ==> p.channelCount == r.verify.channelCount)
         && (!s.servers[r.verify.outgoingPeerID].configured ==> p.throttle == r.verify.throttle))
  }

  ghost predicate ClientOk(s: System, g: Setting, i: nat)
    requires i < |s.clients|
  {
    var p, accepted := s.clients[i].peer, s.clients[i].accepted;
    && (p.state == Connecting ==> p.mtu == g.clientMtu && accepted == None)
    && (Established(p) ==>
         && accepted.Some? && accepted.value in s.replies
         && var v := accepted.value.verify;
         && p.outgoingPeerID == v.outgoingPeerID && p.connectID == v.connectID && p.mtu == v.mtu
         && p.incomingSessionID == v.incomingSessionID && p.outgoingSessionID == v.outgoingSessionID
         && p.channelCount <= v.channelCount && (!s.clients[i].configured ==> p.throttle == v.throttle))
  }

  ghost predicate Good(s: System, g: Setting) {
    && GoodSetting(g)
    && (forall c :: c in s.connects ==> c.mtu == g.clientMtu)
    && (forall r {:trigger r in s.replies} :: r in s.replies ==> ReplyOk(s, g, r))
    && (forall i :: 0 <= i < |s.clients| ==> ClientOk(s, g, i))
  }

  ghost predicate Idle(s: System) {
    && s.connects == {} && s.replies == {}
    && forall i :: 0 <= i < |s.clients| ==> s.clients[i].peer.state == Disconnected
  }

  lemma StartsGood(s: System, s': System, g: Setting, i: nat, address: nat, channelCount: nat, connectID: nat)
    requires Good(s, g) && ClientStarts(s, s', g, i, address, channelCount, connectID)
    ensures Good(s', g)
  {
    forall r | r in s'.replies ensures ReplyOk(s', g, r) { assert ReplyOk(s, g, r); }
    forall k | 0 <= k < |s'.clients| ensures ClientOk(s', g, k) { assert ClientOk(s, g, k); }
  }

  lemma AcceptsGood(s: System, s': System, g: Setting, j: nat, c: ConnectCommand, address: nat, limit: nat, incoming: nat, outgoing: nat)
    requires Good(s, g) && ServerAccepts(s, s', g, j, c, address, limit, incoming, outgoing)
    ensures Good(s', g)
  {
    forall r | r in s'.replies ensures ReplyOk(s', g, r) { if r in s.replies { assert ReplyOk(s, g, r); } }
    forall k | 0 <= k < |s'.clients| ensures ClientOk(s', g, k) { assert ClientOk(s, g, k); }
  }

  lemma VerifiesGood(s: System, s': System, g: Setting, i: nat, r: Reply, event: bool)
    requires Good(s, g) && ClientVerifies(s, s', i, r, event)
    ensures Good(s', g)
  {
    assert ReplyOk(s, g, r) && ClientOk(s, g, i);
    forall q | q in s'.replies ensures ReplyOk(s', g, q) { assert ReplyOk(s, g, q); }
    forall k | 0 <= k < |s'.clients| ensures ClientOk(s', g, k) { assert ClientOk(s, g, k); }
  }

  lemma ClientMovesGood(s: System, s': System, g: Setting, i: nat, p: Peer)
    requires Good(s, g) && ClientMoves(s, s', i, p)
    ensures Good(s', g)
  {
    forall r | r in s'.replies ensures ReplyOk(s', g, r) { assert ReplyOk(s, g, r); }
    forall k | 0 <= k < |s'.clients| ensures ClientOk(s', g, k) { assert ClientOk(s, g, k); }
  }

  lemma ServerMovesGood(s: System, s': System, g: Setting, j: nat, p: Peer)
    requires Good(s, g) && ServerMoves(s, s', j, p)
    ensures Good(s', g)
  {
    forall r | r in s'.replies ensures ReplyOk(s', g, r) { assert ReplyOk(s, g, r); }
    forall k | 0 <= k < |s'.clients| ensures ClientOk(s', g, k) { assert ClientOk(s, g, k); }
  }

  lemma ConfiguresGood(s: System, s': System, g: Setting, k: nat, t: Throttle)
    requires Good(s, g) && (ClientConfigures(s, s', k, t) || ServerConfigures(s, s', k, t))
    ensures Good(s', g)
  {
    forall r | r in s'.replies ensures ReplyOk(s', g, r) { assert ReplyOk(s, g, r); }
    forall i | 0 <= i < |s'.clients| ensures ClientOk(s', g, i) { assert ClientOk(s, g, i); }
  }

  lemma NextIsGood(s: System, s': System, g: Setting)
    requires Good(s, g) && Next(s, s', g)
    ensures Good(s', g)
  {
    hide Good;
    if s' == s {
    } else if i, address, channelCount, connectID :| ClientStarts(s, s', g, i, address, channelCount, connectID) {
      StartsGood(s, s', g, i, address, channelCount, connectID);
    } else if j, c, address, limit, incoming, outgoing :| ServerAccepts(s, s', g, j, c, address, limit, incoming, outgoing) {
      AcceptsGood(s, s', g, j, c, address, limit, incoming, outgoing);
    } else if i, r, event :| ClientVerifies(s, s', i, r, event) {
      VerifiesGood(s, s', g, i, r, event);
    } else if i, p :| ClientMoves(s, s', i, p) {
      ClientMovesGood(s, s', g, i, p);
    } else if j, p :| ServerMoves(s, s', j, p) {
      ServerMovesGood(s, s', g, j, p);
    } else if i, t :| ClientConfigures(s, s', i, t) {
      ConfiguresGood(s, s', g, i, t);
    } else if j, t :| ServerConfigures(s, s', j, t) {
      ConfiguresGood(s, s', g, j, t);
    }
  }

  ghost predicate IsRun(run: seq<System>, g: Setting) {
    && GoodSetting(g) && |run| > 0 && Idle(run[0])
    && forall k :: 0 <= k < |run| - 1 ==> Next(run[k], run[k + 1], g)
  }

  lemma {:induction false} RunIsGood(run: seq<System>, g: Setting)
    requires IsRun(run, g)
    ensures Good(run[|run| - 1], g)
    decreases |run|
  {
    hide Next;
    var last := |run| - 1;
    if last > 0 {
      RunIsGood(run[..last], g);
      NextIsGood(run[last - 1], run[last], g);
    }
  }

  /** An established client's peer has taken an answer, and as long as the server's slot is still in the use that gave it,
      the two hold the same connection and mtu, and session numbers that match crosswise. The client uses no channel that the
      server has not, until the server lets it go; the throttle settings are the same until one side sets its own. */
  ghost predicate Agrees(s: System, i: nat)
    requires i < |s.clients|
  {
    var p := s.clients[i].peer;
    Established(p) ==>
      && s.clients[i].accepted.Some?
      && p.outgoingPeerID < |s.servers|
      && var slot := s.servers[p.outgoingPeerID];
         (slot.incarnation == s.clients[i].accepted.value.incarnation && slot.peer.state != Disconnected ==>
           && slot.peer.connectID == p.connectID && slot.peer.mtu == p.mtu
           && slot.peer.incomingSessionID == p.outgoingSessionID && slot.peer.outgoingSessionID == p.incomingSessionID
           && (Serving(slot.peer) ==> p.channelCount <= slot.peer.channelCount)
           && (!s.clients[i].configured && !slot.configured ==> slot.peer.throttle == p.throttle))
  }

  lemma HandshakesAgree(run: seq<System>, g: Setting)
    requires IsRun(run, g)
    ensures forall k, i :: 0 <= k < |run| && 0 <= i < |run[k].clients| ==> Agrees(run[k], i)
  {
    forall k, i | 0 <= k < |run| && 0 <= i < |run[k].clients| ensures Agrees(run[k], i) {
      RunIsGood(run[..k + 1], g);
      assert ClientOk(run[k], g, i);
      if Established(run[k].clients[i].peer) { assert ReplyOk(run[k], g, run[k].clients[i].accepted.value); }
    }
  }

  // The handlers of a host are steps of these runs.

  function WithServer(s: System, j: nat, p: Peer): System
    requires j < |s.servers|
  {
    s.(servers := s.servers[j := s.servers[j].(peer := p)])
  }

  function WithClient(s: System, i: nat, p: Peer): System
    requires i < |s.clients|
  {
    s.(clients := s.clients[i := s.clients[i].(peer := p)])
  }

  lemma ServerSteps(s: System, g: Setting, j: nat, p: Peer)
    requires j < |s.servers| && MovesOnly(s.servers[j].peer, p)
    ensures Next(s, WithServer(s, j, p), g)
  {
    assert ServerMoves(s, WithServer(s, j, p), j, p);
  }

  lemma ClientSteps(s: System, g: Setting, i: nat, p: Peer)
    requires i < |s.clients| && MovesOnly(s.clients[i].peer, p) && (Established(p) ==> Established(s.clients[i].peer))
    ensures Next(s, WithClient(s, i, p), g)
  {
    assert ClientMoves(s, WithClient(s, i, p), i, p);
  }

  /** Whatever the server does to a peer after accepting it. */
  lemma ServerHandlersAreSteps(s: System, g: Setting, j: nat, mtu: nat, event: bool, acknowledge: bool, incoming: nat, outgoing: nat)
    requires j < |s.servers|
    ensures var p := s.servers[j].peer;
      && Next(s, WithServer(s, j, Ended(p, event, mtu)), g) && Next(s, WithServer(s, j, LetGo(p, mtu)), g)
      && Next(s, WithServer(s, j, PeerLeft(p, acknowledge, mtu)), g) && Next(s, WithServer(s, j, Cleared(p, mtu)), g)
      && (p.state == AcknowledgingConnect ==> Next(s, WithServer(s, j, Notified(p, event)), g))
      && (p.state == ConnectionPending ==> Next(s, WithServer(s, j, p.(state := Connected)), g))
      && (Active(p) ==>
           && Next(s, WithServer(s, j, p.(state := DisconnectLater)), g)
           && Next(s, WithServer(s, j, p.(incomingBandwidth := incoming, outgoingBandwidth := outgoing)), g))
  {
    hide Next, MovesOnly;
    var p := s.servers[j].peer;
    HandlersMoveOn(p, mtu, event, acknowledge, incoming, outgoing, p.throttle);
    ServerSteps(s, g, j, Ended(p, event, mtu));
    ServerSteps(s, g, j, LetGo(p, mtu));
    ServerSteps(s, g, j, PeerLeft(p, acknowledge, mtu));
    ServerSteps(s, g, j, Cleared(p, mtu));
    if p.state == AcknowledgingConnect { ServerSteps(s, g, j, Notified(p, event)); }
    if p.state == ConnectionPending { ServerSteps(s, g, j, p.(state := Connected)); }
    if Active(p) {
      ServerSteps(s, g, j, p.(state := DisconnectLater));
      ServerSteps(s, g, j, p.(incomingBandwidth := incoming, outgoingBandwidth := outgoing));
    }
  }

  /** Whatever the client does to a peer besides starting it and taking its answer. */
  lemma ClientHandlersAreSteps(s: System, g: Setting, i: nat, mtu: nat, event: bool, acknowledge: bool, incoming: nat, outgoing: nat)
    requires i < |s.clients|
    ensures var p := s.clients[i].peer;
      && Next(s, WithClient(s, i, Ended(p, event, mtu)), g) && Next(s, WithClient(s, i, LetGo(p, mtu)), g)
      && Next(s, WithClient(s, i, PeerLeft(p, acknowledge, mtu)), g) && Next(s, WithClient(s, i, Cleared(p, mtu)), g)
      && (p.state == ConnectionSucceeded ==> Next(s, WithClient(s, i, p.(state := Connected)), g))
      && (Active(p) ==>
           && Next(s, WithClient(s, i, p.(state := DisconnectLater)), g)
           && Next(s, WithClient(s, i, p.(incomingBandwidth := incoming, outgoingBandwidth := outgoing)), g))
  {
    hide Next, MovesOnly;
    var p := s.clients[i].peer;
    HandlersMoveOn(p, mtu, event, acknowledge, incoming, outgoing, p.throttle);
    ClientSteps(s, g, i, Ended(p, event, mtu));
    ClientSteps(s, g, i, LetGo(p, mtu));
    ClientSteps(s, g, i, PeerLeft(p, acknowledge, mtu));
    ClientSteps(s, g, i, Cleared(p, mtu));
    if p.state == ConnectionSucceeded { ClientSteps(s, g, i, p.(state := Connected)); }
    if Active(p) {
      ClientSteps(s, g, i, p.(state := DisconnectLater));
      ClientSteps(s, g, i, p.(incomingBandwidth := incoming, outgoingBandwidth := outgoing));
    }
  }
}
