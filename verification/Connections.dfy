/** Connection states: what each handler does to a peer, and the counts a host keeps of its peers. */
module Connections {
  import opened Arithmetic

  const MINIMUM_MTU := 576
  const MAXIMUM_MTU := 4096
  const MINIMUM_CHANNEL_COUNT := 1
  const MAXIMUM_CHANNEL_COUNT := 255
  const MAXIMUM_PEER_ID := 0xFFF
  const SESSIONS := 4
  const NO_SESSION := 0xFF

  datatype State = Disconnected | Connecting | AcknowledgingConnect | ConnectionPending | ConnectionSucceeded
                 | Connected | DisconnectLater | Disconnecting | AcknowledgingDisconnect | Zombie

  /** The states are numbered in this order. */
  function Rank(s: State): nat {
    match s
    case Disconnected => 0
    case Connecting => 1
    case AcknowledgingConnect => 2
    case ConnectionPending => 3
    case ConnectionSucceeded => 4
    case Connected => 5
    case DisconnectLater => 6
    case Disconnecting => 7
    case AcknowledgingDisconnect => 8
    case Zombie => 9
  }

  datatype Throttle = Throttle(interval: nat, acceleration: nat, deceleration: nat)

  const DefaultThrottle := Throttle(5000, 2, 2)

  datatype Peer = Peer(state: State, connectID: nat, address: nat, mtu: nat, outgoingPeerID: nat,
                       incomingSessionID: nat, outgoingSessionID: nat, incomingBandwidth: nat, outgoingBandwidth: nat,
                       channelCount: nat, throttle: Throttle)

  datatype ConnectCommand = ConnectCommand(outgoingPeerID: nat, incomingSessionID: nat, outgoingSessionID: nat, mtu: nat,
                                           channelCount: nat, incomingBandwidth: nat, outgoingBandwidth: nat,
                                           throttle: Throttle, connectID: nat)

  type VerifyCommand = ConnectCommand

  function Clamp(x: nat, low: nat, high: nat): nat { if x < low then low else if x > high then high else x }

  // What becomes of a peer.

  /** enet_host_connect */
  function Started(p: Peer, mtu: nat, address: nat, channelCount: nat, connectID: nat): Peer {
    p.(state := Connecting, address := address, connectID := connectID, mtu := mtu, channelCount := channelCount)
  }

  /** The session the other side counts from, moved on, and once more where it would repeat this side's last. */
  function NextSession(theirs: nat, own: nat): nat {
    var s := ((if theirs == NO_SESSION then own else theirs) + 1) % SESSIONS;
    if s == own then (s + 1) % SESSIONS else s
  }

  /** It is the first after theirs, or after this side's where they have none, that is not this side's last. */
  lemma SessionIsNew(theirs: nat, own: nat)
    ensures var from, s := if theirs == 255 then own else theirs, NextSession(theirs, own);
      && s < 4 && s != own
      && (s == (from + 1) % 4 || (own == (from + 1) % 4 && s == (from + 2) % 4))
  {
  }

  /** enet_protocol_handle_connect */
  function Accepted(p: Peer, mtu: nat, channelLimit: nat, c: ConnectCommand, address: nat): Peer {
    p.(state := AcknowledgingConnect, connectID := c.connectID, address := address,
       mtu := Min(mtu, Clamp(c.mtu, MINIMUM_MTU, MAXIMUM_MTU)), outgoingPeerID := c.outgoingPeerID,
       incomingBandwidth := c.incomingBandwidth, outgoingBandwidth := c.outgoingBandwidth, throttle := c.throttle,
       channelCount := Min(c.channelCount, channelLimit),
       outgoingSessionID := NextSession(c.incomingSessionID, p.outgoingSessionID),
       incomingSessionID := NextSession(c.outgoingSessionID, p.incomingSessionID))
  }

  /** The VERIFY_CONNECT that the slot answers with. */
  function Answer(p: Peer, slot: nat, incomingBandwidth: nat, outgoingBandwidth: nat): VerifyCommand {
    ConnectCommand(slot, p.outgoingSessionID, p.incomingSessionID, p.mtu, p.channelCount,
                   incomingBandwidth, outgoingBandwidth, p.throttle, p.connectID)
  }

  predicate Answers(p: Peer, v: VerifyCommand) {
    MINIMUM_CHANNEL_COUNT <= v.channelCount <= MAXIMUM_CHANNEL_COUNT && v.throttle == p.throttle && v.connectID == p.connectID
  }

  /** enet_protocol_handle_verify_connect, before the state changes. */
  function Verified(p: Peer, v: VerifyCommand): Peer {
    p.(channelCount := Min(v.channelCount, p.channelCount), outgoingPeerID := v.outgoingPeerID,
       incomingSessionID := v.incomingSessionID, outgoingSessionID := v.outgoingSessionID,
       mtu := Min(Clamp(v.mtu, MINIMUM_MTU, MAXIMUM_MTU), p.mtu),
       incomingBandwidth := v.incomingBandwidth, outgoingBandwidth := v.outgoingBandwidth)
  }

  /** enet_peer_reset; the session numbers stay. */
  function Cleared(p: Peer, mtu: nat): Peer {
    p.(state := Disconnected, connectID := 0, outgoingPeerID := MAXIMUM_PEER_ID, mtu := mtu, incomingBandwidth := 0,
       outgoingBandwidth := 0, throttle := DefaultThrottle, channelCount := 0)
  }

  /** enet_protocol_notify_connect */
  function Notified(p: Peer, event: bool): Peer {
    p.(state := if event then Connected else if p.state == Connecting then ConnectionSucceeded else ConnectionPending)
  }

  /** enet_protocol_notify_disconnect */
  function Ended(p: Peer, event: bool, mtu: nat): Peer {
    if event || (p.state != Connecting && Rank(p.state) < Rank(ConnectionSucceeded)) then Cleared(p, mtu) else p.(state := Zombie)
  }

  /** enet_peer_disconnect; its queues are reset, and with them its channels. */
  function LetGo(p: Peer, mtu: nat): Peer {
    match p.state
    case Disconnecting | Disconnected | AcknowledgingDisconnect | Zombie => p
    case Connected | DisconnectLater => p.(state := Disconnecting, channelCount := 0)
    case _ => Cleared(p, mtu)
  }

  /** enet_protocol_handle_disconnect, which resets the queues too. */
  function PeerLeft(p: Peer, acknowledge: bool, mtu: nat): Peer {
    match p.state
    case Disconnected | Zombie | AcknowledgingDisconnect => p
    case ConnectionSucceeded | Disconnecting | Connecting => p.(state := Zombie, channelCount := 0)
    case Connected | DisconnectLater => p.(state := if acknowledge then AcknowledgingDisconnect else Zombie, channelCount := 0)
    case _ => Cleared(p, mtu)
  }

  /** A slot that nobody uses; it remembers only its sessions. */
  predicate IsFree(p: Peer, mtu: nat) {
    && p.state == Disconnected && p.connectID == 0 && p.outgoingPeerID == 4095 && p.mtu == mtu && p.channelCount == 0
    && p.incomingBandwidth == 0 && p.outgoingBandwidth == 0 && p.throttle == Throttle(5000, 2, 2)
  }

  predicate SameSessions(p: Peer, q: Peer) { p.incomingSessionID == q.incomingSessionID && p.outgoingSessionID == q.outgoingSessionID }

  // The host's counts.

  predicate Active(p: Peer) { p.state == Connected || p.state == DisconnectLater }

  predicate ActiveLimited(p: Peer) { Active(p) && p.incomingBandwidth != 0 }

  function Count(ps: seq<Peer>, f: Peer -> bool): nat {
    if ps == [] then 0 else (if f(ps[0]) then 1 else 0) + Count(ps[1..], f)
  }

  lemma {:induction false} CountAt(ps: seq<Peer>, f: Peer -> bool, i: nat, q: Peer)
    requires i < |ps|
    ensures Count(ps[i := q], f) + (if f(ps[i]) then 1 else 0) == Count(ps, f) + (if f(q) then 1 else 0)
  {
    if i == 0 {
      assert ps[0 := q][1..] == ps[1..];
    } else {
      CountAt(ps[1..], f, i - 1, q);
      assert ps[i := q][1..] == ps[1..][i - 1 := q];
    }
  }

  lemma {:induction false} CountOneMore(ps: seq<Peer>, f: Peer -> bool, p: Peer)
    ensures Count(ps + [p], f) == Count(ps, f) + if f(p) then 1 else 0
  {
    if ps != [] {
      CountOneMore(ps[1..], f, p);
      assert (ps + [p])[1..] == ps[1..] + [p];
    }
  }

  /** A slot that the sender's host has taken up. */
  function FromHost(sameHost: nat -> bool): Peer -> bool {
    (p: Peer) => p.state != Disconnected && p.state != Connecting && sameHost(p.address)
  }

  /** This attempt to connect has a slot already. */
  predicate IsDuplicate(p: Peer, connectID: nat, address: nat, sameHost: nat -> bool) {
    FromHost(sameHost)(p) && p.address == address && p.connectID == connectID
  }

  /** A CONNECT gets no slot: its channel count is out of range, it has one, its host has too many, or none is free. */
  ghost predicate Refused(ps: seq<Peer>, c: ConnectCommand, address: nat, sameHost: nat -> bool, duplicatePeers: nat) {
    || !(MINIMUM_CHANNEL_COUNT <= c.channelCount <= MAXIMUM_CHANNEL_COUNT)
    || (exists j :: 0 <= j < |ps| && IsDuplicate(ps[j], c.connectID, address, sameHost))
    || (forall j :: 0 <= j < |ps| ==> ps[j].state != Disconnected)
    || Count(ps, FromHost(sameHost)) >= duplicatePeers
  }

  class Host {
    const peers: array<Peer>
    const mtu: nat
    const channelLimit: nat
    const duplicatePeers: nat
    var incomingBandwidth: nat
    var outgoingBandwidth: nat
    var connectedPeers: int
    var bandwidthLimitedPeers: int

    /** The counts are those of the connected peers, and of those of them with a bandwidth limit. */
    ghost predicate Valid()
      reads this, peers
    {
      connectedPeers == Count(peers[..], Active) && bandwidthLimitedPeers == Count(peers[..], ActiveLimited)
    }

    /** enet_host_create */
    constructor (peerCount: nat, mtu: nat, channelLimit: nat, duplicatePeers: nat, incomingBandwidth: nat, outgoingBandwidth: nat)
      ensures Valid() && fresh(peers) && peers.Length == peerCount && connectedPeers == 0
      ensures forall i :: 0 <= i < peerCount ==>
        IsFree(peers[i], mtu) && peers[i].incomingSessionID == NO_SESSION && peers[i].outgoingSessionID == NO_SESSION
      ensures this.mtu == mtu && this.channelLimit == channelLimit && this.duplicatePeers == duplicatePeers
      ensures this.incomingBandwidth == incomingBandwidth && this.outgoingBandwidth == outgoingBandwidth
    {
      peers := new Peer[peerCount](_ => Peer(Disconnected, 0, 0, mtu, MAXIMUM_PEER_ID, NO_SESSION, NO_SESSION, 0, 0, 0, DefaultThrottle));
      this.mtu, this.channelLimit, this.duplicatePeers := mtu, channelLimit, duplicatePeers;
      this.incomingBandwidth, this.outgoingBandwidth := incomingBandwidth, outgoingBandwidth;
      connectedPeers, bandwidthLimitedPeers := 0, 0;
      new;
      NoneActive(peers[..]);
    }

    /** Writes back a peer; the counts have been kept up with it. */
    method Put(i: nat, q: Peer, connected: int, limited: int)
      requires Valid() && i < peers.Length
      requires connected == connectedPeers - (if Active(peers[i]) then 1 else 0) + (if Active(q) then 1 else 0)
      requires limited == bandwidthLimitedPeers - (if ActiveLimited(peers[i]) then 1 else 0) + (if ActiveLimited(q) then 1 else 0)
      modifies `connectedPeers, `bandwidthLimitedPeers, peers
      ensures Valid() && peers[..] == old(peers[..])[i := q]
    {
      ghost var before := peers[..];
      CountAt(before, Active, i, q);
      CountAt(before, ActiveLimited, i, q);
      peers[i] := q;
      assert peers[..] == before[i := q];
      connectedPeers, bandwidthLimitedPeers := connected, limited;
    }

    /** enet_peer_on_connect and enet_peer_on_disconnect: what the counts become when a peer enters a state. */
    method Counts(p: Peer, entered: State) returns (connected: int, limited: int)
      ensures connected == connectedPeers - (if Active(p) then 1 else 0) + (if Active(p.(state := entered)) then 1 else 0)
      ensures limited == bandwidthLimitedPeers - (if ActiveLimited(p) then 1 else 0) + (if ActiveLimited(p.(state := entered)) then 1 else 0)
    {
      connected, limited := connectedPeers, bandwidthLimitedPeers;
      if entered == Connected || entered == DisconnectLater {
        if p.state != Connected && p.state != DisconnectLater {
          if p.incomingBandwidth != 0 { limited := limited + 1; }
          connected := connected + 1;
        }
      } else if p.state == Connected || p.state == DisconnectLater {
        if p.incomingBandwidth != 0 { limited := limited - 1; }
        connected := connected - 1;
      }
    }

    /** enet_protocol_change_state */
    method ChangeState(i: nat, state: State)
      requires Valid() && i < peers.Length
      modifies `connectedPeers, `bandwidthLimitedPeers, peers
      ensures Valid() && peers[..] == old(peers[..])[i := old(peers[i]).(state := state)]
    {
      var connected, limited := Counts(peers[i], state);
      Put(i, peers[i].(state := state), connected, limited);
    }

    /** enet_peer_reset */
    method Reset(i: nat)
      requires Valid() && i < peers.Length
      modifies `connectedPeers, `bandwidthLimitedPeers, peers
      ensures Valid() && peers[..] == old(peers[..])[i := Cleared(old(peers[i]), mtu)]
      ensures IsFree(peers[i], mtu) && SameSessions(peers[i], old(peers[i]))
    {
      var connected, limited := Counts(peers[i], Disconnected);
      Put(i, Cleared(peers[i], mtu), connected, limited);
    }

    /** The end of enet_peer_reset_queues: the peer has no channels any more. */
    method ResetQueues(i: nat)
      requires Valid() && i < peers.Length
      modifies `connectedPeers, `bandwidthLimitedPeers, peers
      ensures Valid() && peers[..] == old(peers[..])[i := old(peers[i]).(channelCount := 0)]
    {
      Put(i, peers[i].(channelCount := 0), connectedPeers, bandwidthLimitedPeers);
    }

    /** enet_host_connect; connectID is the random number drawn. */
    method Connect(address: nat, channelCount: nat, connectID: nat) returns (slot: nat, command: ConnectCommand)
      requires Valid()
      modifies `connectedPeers, `bandwidthLimitedPeers, peers
      ensures Valid()
      ensures slot == peers.Length ==> peers[..] == old(peers[..]) && forall j :: 0 <= j < peers.Length ==> peers[j].state != Disconnected
      ensures slot < peers.Length ==>
        var p := old(peers[slot]);
        var q := Started(p, mtu, address, Clamp(channelCount, MINIMUM_CHANNEL_COUNT, MAXIMUM_CHANNEL_COUNT), connectID);
        && p.state == Disconnected && peers[..] == old(peers[..])[slot := q]
        && command == ConnectCommand(slot, p.incomingSessionID, p.outgoingSessionID, mtu, q.channelCount,
                                     incomingBandwidth, outgoingBandwidth, p.throttle, connectID)
      ensures slot <= peers.Length
    {
      var count := Clamp(channelCount, MINIMUM_CHANNEL_COUNT, MAXIMUM_CHANNEL_COUNT);
      slot := 0;
      while slot < peers.Length && peers[slot].state != Disconnected
        invariant slot <= peers.Length && forall j :: 0 <= j < slot ==> peers[j].state != Disconnected
      {
        slot := slot + 1;
      }
      command := ConnectCommand(slot, 0, 0, mtu, count, incomingBandwidth, outgoingBandwidth, DefaultThrottle, connectID);
      if slot == peers.Length { return; }
      var p := peers[slot];
      command := command.(incomingSessionID := p.incomingSessionID, outgoingSessionID := p.outgoingSessionID, throttle := p.throttle);
      Put(slot, Started(p, mtu, address, count, connectID), connectedPeers, bandwidthLimitedPeers);
    }

    /** enet_protocol_handle_connect; sameHost tells whether an address is of the sender's host. */
    method HandleConnect(command: ConnectCommand, address: nat, sameHost: nat -> bool) returns (slot: nat, verify: VerifyCommand)
      requires Valid()
      modifies `connectedPeers, `bandwidthLimitedPeers, peers
      ensures Valid() && slot <= peers.Length
      ensures slot == peers.Length <==> Refused(old(peers[..]), command, address, sameHost, duplicatePeers)
      ensures slot == peers.Length ==> peers[..] == old(peers[..])
      ensures slot < peers.Length ==>
        && old(peers[slot].state) == Disconnected && (forall j :: 0 <= j < slot ==> old(peers[j].state) != Disconnected)
        && peers[..] == old(peers[..])[slot := Accepted(old(peers[slot]), mtu, channelLimit, command, address)]
        && verify == Answer(peers[slot], slot, incomingBandwidth, outgoingBandwidth)
    {
      slot, verify := peers.Length, command;
      if command.channelCount < MINIMUM_CHANNEL_COUNT || command.channelCount > MAXIMUM_CHANNEL_COUNT { return; }
      var duplicates, i := 0, 0;
      ghost var taken := FromHost(sameHost);
      assert peers[..0] == [];
      while i < peers.Length
        invariant Valid() && peers[..] == old(peers[..])
        invariant i <= peers.Length && slot <= peers.Length && duplicates == Count(peers[..i], taken)
        invariant slot < peers.Length ==>
          slot < i && peers[slot].state == Disconnected && forall j :: 0 <= j < slot ==> peers[j].state != Disconnected
        invariant slot == peers.Length ==> forall j :: 0 <= j < i ==> peers[j].state != Disconnected
        invariant forall j :: 0 <= j < i ==> !IsDuplicate(peers[j], command.connectID, address, sameHost)
      {
        var peer := peers[i];
        CountOneMore(peers[..i], taken, peer);
        assert peers[..i + 1] == peers[..i] + [peer];
        if peer.state == Disconnected {
          if slot == peers.Length { slot := i; }
        } else if peer.state != Connecting && sameHost(peer.address) {
          if peer.address == address && peer.connectID == command.connectID {
            slot := peers.Length;
            assert IsDuplicate(peers[..][i], command.connectID, address, sameHost);
            return;
          }
          duplicates := duplicates + 1;
        }
        i := i + 1;
      }
      assert peers[..i] == peers[..];
      if slot == peers.Length || duplicates >= duplicatePeers {
        slot := peers.Length;
        return;
      }
      assert peers[..][slot].state == Disconnected;
      Put(slot, Accepted(peers[slot], mtu, channelLimit, command, address), connectedPeers, bandwidthLimitedPeers);
      verify := Answer(peers[slot], slot, incomingBandwidth, outgoingBandwidth);
    }

    /** enet_protocol_notify_connect; at once where the service loop waits for an event. */
    method NotifyConnect(i: nat, event: bool)
      requires Valid() && i < peers.Length
      modifies `connectedPeers, `bandwidthLimitedPeers, peers
      ensures Valid()
      ensures peers[..] == old(peers[..])[i := Notified(old(peers[i]), event)]
    {
      if event {
        ChangeState(i, Connected);
      } else {
        ChangeState(i, if peers[i].state == Connecting then ConnectionSucceeded else ConnectionPending);
      }
    }

    /** enet_protocol_notify_disconnect */
    method NotifyDisconnect(i: nat, event: bool)
      requires Valid() && i < peers.Length
      modifies `connectedPeers, `bandwidthLimitedPeers, peers
      ensures Valid()
      ensures peers[..] == old(peers[..])[i := Ended(old(peers[i]), event, mtu)]
      ensures peers[i].state ==
        if event || old(peers[i].state) in {Disconnected, AcknowledgingConnect, ConnectionPending} then Disconnected else Zombie
    {
      if peers[i].state != Connecting && Rank(peers[i].state) < Rank(ConnectionSucceeded) {
        Reset(i);
      } else if event {
        Reset(i);
      } else {
        ChangeState(i, Zombie);
      }
    }

    /** enet_protocol_handle_verify_connect */
    method HandleVerifyConnect(i: nat, verify: VerifyCommand, event: bool)
      requires Valid() && i < peers.Length
      modifies `connectedPeers, `bandwidthLimitedPeers, peers
      ensures Valid()
      ensures var p := old(peers[i]);
        peers[..] == old(peers[..])[i :=
          if p.state != Connecting then p
          else if !Answers(p, verify) then p.(state := Zombie)
          else Notified(Verified(p, verify), event)]
    {
      var peer := peers[i];
      if peer.state != Connecting { return; }
      if !Answers(peer, verify) {
        ChangeState(i, Zombie);
        return;
      }
      ghost var before := peers[..];
      Put(i, Verified(peer, verify), connectedPeers, bandwidthLimitedPeers);
      NotifyConnect(i, event);
      assert before[i := Verified(peer, verify)][i := peers[i]] == before[i := peers[i]];
    }

    /** enet_peer_disconnect, for a peer whose state it changes. */
    method Disconnect(i: nat)
      requires Valid() && i < peers.Length
      modifies `connectedPeers, `bandwidthLimitedPeers, peers
      ensures Valid()
      ensures peers[..] == old(peers[..])[i := LetGo(old(peers[i]), mtu)]
      ensures var s := old(peers[i].state);
        && (s in {Connected, DisconnectLater} ==> peers[i] == old(peers[i]).(state := Disconnecting, channelCount := 0))
        && (s in {Disconnecting, Disconnected, AcknowledgingDisconnect, Zombie} ==> peers[i] == old(peers[i]))
        && (s in {Connecting, AcknowledgingConnect, ConnectionPending, ConnectionSucceeded} ==> IsFree(peers[i], mtu))
    {
      var state := peers[i].state;
      if state == Disconnecting || state == Disconnected || state == AcknowledgingDisconnect || state == Zombie { return; }
      ghost var p, before := peers[i], peers[..];
      ResetQueues(i);
      if state == Connected || state == DisconnectLater {
        ChangeState(i, Disconnecting);
      } else {
        Reset(i);
      }
      assert peers[..] == before[i := LetGo(p, mtu)];
    }

    /** enet_peer_disconnect_later */
    method DisconnectWhenSent(i: nat, hasOutgoingCommands: bool)
      requires Valid() && i < peers.Length
      modifies `connectedPeers, `bandwidthLimitedPeers, peers
      ensures Valid()
      ensures var p := old(peers[i]);
        peers[..] == old(peers[..])[i := if Active(p) && hasOutgoingCommands then p.(state := DisconnectLater) else LetGo(p, mtu)]
    {
      if (peers[i].state == Connected || peers[i].state == DisconnectLater) && hasOutgoingCommands {
        Put(i, peers[i].(state := DisconnectLater), connectedPeers, bandwidthLimitedPeers);
      } else {
        Disconnect(i);
      }
    }

    /** The last part of enet_protocol_handle_acknowledge: verifies and disconnects tell what the command acknowledged was. */
    method HandleAcknowledge(i: nat, verifies: bool, disconnects: bool, event: bool, hasOutgoingCommands: bool)
      requires Valid() && i < peers.Length
      modifies `connectedPeers, `bandwidthLimitedPeers, peers
      ensures Valid()
      ensures var p := old(peers[i]);
        peers[..] == old(peers[..])[i :=
          if p.state == AcknowledgingConnect && verifies then Notified(p, event)
          else if p.state == Disconnecting && disconnects then Ended(p, event, mtu)
          else if p.state == DisconnectLater && !hasOutgoingCommands then LetGo(p, mtu) else p]
    {
      match peers[i].state {
        case AcknowledgingConnect => if verifies { NotifyConnect(i, event); }
        case Disconnecting => if disconnects { NotifyDisconnect(i, event); }
        case DisconnectLater => if !hasOutgoingCommands { Disconnect(i); }
        case _ =>
      }
    }

    /** enet_protocol_handle_disconnect */
    method HandleDisconnect(i: nat, acknowledge: bool)
      requires Valid() && i < peers.Length
      modifies `connectedPeers, `bandwidthLimitedPeers, peers
      ensures Valid()
      ensures peers[..] == old(peers[..])[i := PeerLeft(old(peers[i]), acknowledge, mtu)]
      ensures var s := old(peers[i].state);
        && (s in {Connected, DisconnectLater} && acknowledge ==>
             peers[i] == old(peers[i]).(state := AcknowledgingDisconnect, channelCount := 0))
        && ((s in {Connected, DisconnectLater} && !acknowledge) || s in {ConnectionSucceeded, Disconnecting, Connecting} ==>
             peers[i] == old(peers[i]).(state := Zombie, channelCount := 0))
        && (s in {AcknowledgingConnect, ConnectionPending} ==> IsFree(peers[i], mtu))
        && (s in {Disconnected, Zombie, AcknowledgingDisconnect} ==> peers[i] == old(peers[i]))
    {
      var state := peers[i].state;
      if state == Disconnected || state == Zombie || state == AcknowledgingDisconnect { return; }
      ghost var p, before := peers[i], peers[..];
      ResetQueues(i);
      if state == ConnectionSucceeded || state == Disconnecting || state == Connecting {
        ChangeState(i, Zombie);
      } else if state != Connected && state != DisconnectLater {
        Reset(i);
      } else if acknowledge {
        ChangeState(i, AcknowledgingDisconnect);
      } else {
        ChangeState(i, Zombie);
      }
      assert peers[..] == before[i := PeerLeft(p, acknowledge, mtu)];
    }

    /** enet_protocol_handle_bandwidth_limit */
    method HandleBandwidthLimit(i: nat, incoming: nat, outgoing: nat)
      requires Valid() && i < peers.Length
      modifies `connectedPeers, `bandwidthLimitedPeers, peers
      ensures Valid()
      ensures var p := old(peers[i]);
        peers[..] == old(peers[..])[i := if Active(p) then p.(incomingBandwidth := incoming, outgoingBandwidth := outgoing) else p]
    {
      var peer := peers[i];
      if peer.state != Connected && peer.state != DisconnectLater { return; }
      var limited := bandwidthLimitedPeers;
      if peer.incomingBandwidth != 0 { limited := limited - 1; }
      peer := peer.(incomingBandwidth := incoming, outgoingBandwidth := outgoing);
      if peer.incomingBandwidth != 0 { limited := limited + 1; }
      Put(i, peer, connectedPeers, limited);
    }

    /** enet_peer_throttle_configure, which looks at no state. */
    method ConfigureThrottle(i: nat, throttle: Throttle)
      requires Valid() && i < peers.Length
      modifies `connectedPeers, `bandwidthLimitedPeers, peers
      ensures Valid() && peers[..] == old(peers[..])[i := old(peers[i]).(throttle := throttle)]
    {
      Put(i, peers[i].(throttle := throttle), connectedPeers, bandwidthLimitedPeers);
    }

    /** enet_protocol_handle_throttle_configure */
    method HandleThrottleConfigure(i: nat, throttle: Throttle)
      requires Valid() && i < peers.Length
      modifies `connectedPeers, `bandwidthLimitedPeers, peers
      ensures Valid()
      ensures var p := old(peers[i]);
        peers[..] == old(peers[..])[i := if Active(p) then p.(throttle := throttle) else p]
    {
      if peers[i].state != Connected && peers[i].state != DisconnectLater { return; }
      ConfigureThrottle(i, throttle);
    }

    /** A peer's acknowledgement goes out in enet_protocol_send_acknowledgements; disconnects: of a DISCONNECT. */
    method SendAcknowledgement(i: nat, disconnects: bool)
      requires Valid() && i < peers.Length
      modifies `connectedPeers, `bandwidthLimitedPeers, peers
      ensures Valid()
      ensures var p := old(peers[i]); peers[..] == old(peers[..])[i := if disconnects then p.(state := Zombie) else p]
    {
      if disconnects { ChangeState(i, Zombie); }
    }

    /** A peer's turn in enet_protocol_dispatch_incoming_commands. */
    method Dispatch(i: nat)
      requires Valid() && i < peers.Length
      modifies `connectedPeers, `bandwidthLimitedPeers, peers
      ensures Valid()
      ensures var p := old(peers[i]);
        peers[..] == old(peers[..])[i :=
          if p.state == ConnectionPending || p.state == ConnectionSucceeded then p.(state := Connected)
          else if p.state == Zombie then Cleared(p, mtu) else p]
    {
      match peers[i].state {
        case ConnectionPending => ChangeState(i, Connected);
        case ConnectionSucceeded => ChangeState(i, Connected);
        case Zombie => Reset(i);
        case _ =>
      }
    }
  }

  /** A peer on whose connection both sides have to agree. */
  predicate Established(p: Peer) { p.state == ConnectionSucceeded || Active(p) }

  /** A peer that still has the channels it was given. */
  predicate Serving(p: Peer) { p.state == AcknowledgingConnect || p.state == ConnectionPending || Established(p) }

  /** What a peer may become outside the handshake: connection, mtu and sessions stay until the slot is free again, and the
      channels until the peer is let go. */
  ghost predicate MovesOn(p: Peer, q: Peer) {
    && (q.state == Disconnected
        || (q.connectID == p.connectID && q.mtu == p.mtu && q.outgoingPeerID == p.outgoingPeerID
            && q.incomingSessionID == p.incomingSessionID && q.outgoingSessionID == p.outgoingSessionID))
    && (Serving(q) ==> Serving(p) && q.channelCount == p.channelCount)
    && (Established(q) ==> Established(p) || p.state == AcknowledgingConnect || p.state == ConnectionPending)
    && (q.state == Connecting ==> p.state == Connecting)
    && (p.state == Disconnected ==> q.state == Disconnected)
  }

  /** Only configuring it changes a peer's throttle. */
  ghost predicate KeepsThrottle(p: Peer, q: Peer) { q.state == Disconnected || q.throttle == p.throttle }

  ghost predicate MovesOnly(p: Peer, q: Peer) { MovesOn(p, q) && KeepsThrottle(p, q) }

  /** Apart from the handshake itself, nothing a host does to a peer does more than that. */
  lemma HandlersMoveOn(p: Peer, mtu: nat, event: bool, acknowledge: bool, incoming: nat, outgoing: nat, throttle: Throttle)
    ensures MovesOnly(p, Ended(p, event, mtu)) && MovesOnly(p, LetGo(p, mtu)) && MovesOnly(p, PeerLeft(p, acknowledge, mtu))
    ensures MovesOnly(p, Cleared(p, mtu)) && MovesOnly(p, p)
    ensures p.state == AcknowledgingConnect || p.state == ConnectionPending ==> MovesOnly(p, Notified(p, event))
    ensures p.state == ConnectionSucceeded || p.state == ConnectionPending ==> MovesOnly(p, p.(state := Connected))
    ensures Active(p) ==> MovesOnly(p, p.(state := DisconnectLater)) && MovesOnly(p, p.(incomingBandwidth := incoming, outgoingBandwidth := outgoing))
    ensures MovesOn(p, p.(throttle := throttle))
    ensures Established(Ended(p, event, mtu)) || Established(LetGo(p, mtu)) || Established(PeerLeft(p, acknowledge, mtu)) ==> Established(p)
  {
  }

  lemma {:induction false} NoneActive(ps: seq<Peer>)
    requires forall i :: 0 <= i < |ps| ==> ps[i].state == Disconnected
    ensures Count(ps, Active) == 0 && Count(ps, ActiveLimited) == 0
  {
    if ps != [] { NoneActive(ps[1..]); }
  }

  /** The counts are never negative, and no more peers are limited than connected. */
  lemma {:induction false} LimitedAreConnected(ps: seq<Peer>)
    ensures 0 <= Count(ps, ActiveLimited) <= Count(ps, Active) <= |ps|
  {
    if ps != [] { LimitedAreConnected(ps[1..]); }
  }

  // The life of a connection.

  /** What two connected peers have agreed on, and what each knows of the other's host. */
  ghost predicate Agreed(p: Peer, client: Host, q: Peer, server: Host, channelCount: nat, connectID: nat, i: nat, j: nat)
    reads client, server
  {
    && p.state == Connected && q.state == Connected && p.connectID == connectID && q.connectID == connectID
    && p.outgoingPeerID == j && q.outgoingPeerID == i && p.throttle == q.throttle
    && p.mtu == q.mtu && p.mtu == (if client.mtu < server.mtu then client.mtu else server.mtu)
    && p.incomingSessionID == q.outgoingSessionID && p.outgoingSessionID == q.incomingSessionID
    && p.incomingBandwidth == server.incomingBandwidth && p.outgoingBandwidth == server.outgoingBandwidth
    && q.incomingBandwidth == client.incomingBandwidth && q.outgoingBandwidth == client.outgoingBandwidth
    && p.channelCount == q.channelCount
    && p.channelCount == (var c := if channelCount < 1 then 1 else if channelCount > 255 then 255 else channelCount;
                          if c < server.channelLimit then c else server.channelLimit)
  }

  /** A connection made: CONNECT, VERIFY_CONNECT, its acknowledgement, and both peers' turns to be dispatched. */
  method Establish(client: Host, server: Host, from: nat, to: nat, sameHost: nat -> bool, channelCount: nat, connectID: nat,
                   clientEvent: bool, serverEvent: bool)
    returns (i: nat, j: nat)
    requires client.Valid() && server.Valid() && client != server && client.peers != server.peers
    requires MINIMUM_MTU <= client.mtu <= MAXIMUM_MTU && MINIMUM_MTU <= server.mtu <= MAXIMUM_MTU
    requires MINIMUM_CHANNEL_COUNT <= server.channelLimit <= MAXIMUM_CHANNEL_COUNT
    modifies client, client.peers, server, server.peers
    ensures client.Valid() && server.Valid() && i <= client.peers.Length && j <= server.peers.Length
    ensures unchanged(client`incomingBandwidth, client`outgoingBandwidth, server`incomingBandwidth, server`outgoingBandwidth)
    ensures i < client.peers.Length && j < server.peers.Length ==>
      && Agreed(client.peers[i], client, server.peers[j], server, channelCount, connectID, i, j)
      && client.peers[..] == old(client.peers[..])[i := client.peers[i]]
      && server.peers[..] == old(server.peers[..])[j := server.peers[j]]
      && old(client.peers[i].state) == Disconnected && old(server.peers[j].state) == Disconnected
      && server.peers[j].incomingSessionID != old(server.peers[j].incomingSessionID)
      && server.peers[j].outgoingSessionID != old(server.peers[j].outgoingSessionID)
    ensures i == client.peers.Length ==> forall k :: 0 <= k < client.peers.Length ==> old(client.peers[k].state) != Disconnected
    ensures old(Count(server.peers[..], FromHost(sameHost))) < server.duplicatePeers && i < client.peers.Length
      && (exists k :: 0 <= k < server.peers.Length && old(server.peers[k].state) == Disconnected)
      && (forall k :: 0 <= k < server.peers.Length ==> !IsDuplicate(old(server.peers[k]), connectID, from, sameHost))
      ==> j < server.peers.Length
  {
    hide Count;
    var command;
    i, command := client.Connect(to, channelCount, connectID);
    j := server.peers.Length;
    if i == client.peers.Length { return; }
    var verify;
    j, verify := server.HandleConnect(command, from, sameHost);
    if j == server.peers.Length { return; }
    client.HandleVerifyConnect(i, verify, clientEvent);
    server.HandleAcknowledge(j, true, false, serverEvent, false);
    client.Dispatch(i);
    server.Dispatch(j);
  }

  /** Slot i, of an active peer, has been given up, and nothing else has changed: the counts are the others'. */
  ghost predicate GivenUp(before: seq<Peer>, connected: int, limited: int, h: Host, i: nat)
    reads h, h.peers
  {
    && i < |before| == h.peers.Length && h.Valid() && h.peers[..] == before[i := h.peers[..][i]]
    && IsFree(h.peers[..][i], h.mtu) && SameSessions(h.peers[..][i], before[i])
    && h.connectedPeers == connected - 1
    && h.bandwidthLimitedPeers == limited - if before[i].incomingBandwidth != 0 then 1 else 0
  }

  lemma OneFewer(ps: seq<Peer>, i: nat, q: Peer)
    requires i < |ps| && Active(ps[i]) && !Active(q)
    ensures Count(ps[i := q], Active) == Count(ps, Active) - 1
    ensures Count(ps[i := q], ActiveLimited) == Count(ps, ActiveLimited) - if ps[i].incomingBandwidth != 0 then 1 else 0
  {
    CountAt(ps, Active, i, q);
    CountAt(ps, ActiveLimited, i, q);
  }

  /** A connection ended from this side: the request, its acknowledgement, and the peer's turn to be dispatched. */
  method EndFromHere(h: Host, i: nat, event: bool) returns (asked: State, acknowledged: State)
    requires h.Valid() && i < h.peers.Length && Active(h.peers[i])
    modifies h, h.peers
    ensures asked == Disconnecting
    ensures acknowledged == if event then Disconnected else Zombie
    ensures GivenUp(old(h.peers[..]), old(h.connectedPeers), old(h.bandwidthLimitedPeers), h, i)
  {
    ghost var before := h.peers[..];
    h.Disconnect(i);
    asked := h.peers[i].state;
    h.HandleAcknowledge(i, false, true, event, false);
    acknowledged := h.peers[i].state;
    h.Dispatch(i);
    assert h.peers[..] == before[i := h.peers[i]];
    OneFewer(before, i, h.peers[i]);
  }

  /** One ended from this side when everything has been sent. */
  method EndWhenSent(h: Host, i: nat, event: bool) returns (asked: State, sent: State, acknowledged: State)
    requires h.Valid() && i < h.peers.Length && Active(h.peers[i])
    modifies h, h.peers
    ensures asked == DisconnectLater && sent == Disconnecting && acknowledged == (if event then Disconnected else Zombie)
    ensures GivenUp(old(h.peers[..]), old(h.connectedPeers), old(h.bandwidthLimitedPeers), h, i)
  {
    ghost var before := h.peers[..];
    h.DisconnectWhenSent(i, true);
    asked := h.peers[i].state;
    h.HandleAcknowledge(i, false, false, event, false);
    sent := h.peers[i].state;
    h.HandleAcknowledge(i, false, true, event, false);
    acknowledged := h.peers[i].state;
    h.Dispatch(i);
    assert h.peers[..] == before[i := h.peers[i]];
    OneFewer(before, i, h.peers[i]);
  }

  /** One ended by the other side, which may want to be told. */
  method EndFromThere(h: Host, i: nat, acknowledge: bool) returns (told: State)
    requires h.Valid() && i < h.peers.Length && Active(h.peers[i])
    modifies h, h.peers
    ensures told == (if acknowledge then AcknowledgingDisconnect else Zombie)
    ensures GivenUp(old(h.peers[..]), old(h.connectedPeers), old(h.bandwidthLimitedPeers), h, i)
  {
    ghost var before := h.peers[..];
    h.HandleDisconnect(i, acknowledge);
    told := h.peers[i].state;
    if told == AcknowledgingDisconnect { h.SendAcknowledgement(i, true); }
    h.Dispatch(i);
    assert h.peers[..] == before[i := h.peers[i]];
    OneFewer(before, i, h.peers[i]);
  }
}
