/** A channel's two ends and a network that loses, repeats and reorders, with numbers as if they never wrapped. */
module ReliableChannel {
  import opened Bytes
  import opened SequenceNumbers
  import opened Fragmentation
  import opened Numbering
  import opened SendWindow
  import opened ReliableReceiver
  import opened ReliableSender

  /** top commands have been sent, flight are not acknowledged yet; of received the packets before delivered are whole;
      acks are the commands the receiver has acknowledged. */
  datatype Channel = Channel(packets: Packets, top: nat, flight: set<nat>, received: set<nat>, delivered: nat, acks: set<nat>)

  /** The receiver has delivered as far as it can. */
  ghost predicate UpToDate(c: Channel, limit: nat) {
    && limit > 0 && c.delivered <= |c.packets| && Settled(c.packets, limit, c.received, c.delivered)
    && forall i :: 0 <= i < c.delivered ==> Complete(c.packets, limit, c.received, i)
  }

  ghost predicate Acknowledged(c: Channel, n: nat) { 1 <= n <= c.top && n !in c.flight }

  /** What the receiver acknowledges lies in the windows that it takes commands from, or before; the sender keeps to the
      window after these. */
  ghost predicate Near(c: Channel, limit: nat)
    requires limit > 0 && c.delivered <= |c.packets|
  {
    var current := Window(Current(c.packets, limit, c.delivered));
    && Window(c.top) < current + FREE_RELIABLE_WINDOWS
    && forall n :: n in c.acks ==> Window(n) < current + FREE_RELIABLE_WINDOWS - 1
  }

  ghost predicate Good(c: Channel, limit: nat) {
    && UpToDate(c, limit) && Near(c, limit)
    && c.top <= Total(c.packets, limit) && InReach(c.flight, c.top)
    && (forall n :: n in c.received ==> 1 <= n <= c.top)
    && c.acks <= c.received
    && (forall n {:trigger Acknowledged(c, n)} :: Acknowledged(c, n) ==> n in c.acks)
  }

  function Idle(): Channel { Channel([], 0, {}, {}, 0, {}) }

  ghost predicate Enqueues(c: Channel, c': Channel) {
    c.packets <= c'.packets && c' == c.(packets := c'.packets)
  }

  ghost predicate Sends(c: Channel, c': Channel, limit: nat) {
    && limit > 0 && c.top <= c'.top <= Total(c.packets, limit) && c'.flight == c.flight + After(c.top, c'.top)
    && InReach(c'.flight, c'.top) && (forall n :: c.top < n <= c'.top ==> MayBegin(c.flight, c.top, n))
    && c' == c.(top := c'.top, flight := c'.flight)
  }

  /** A copy of command n comes. */
  ghost predicate Delivers(c: Channel, c': Channel, limit: nat, n: nat) {
    && UpToDate(c, limit) && UpToDate(c', limit) && 1 <= n <= c.top && c.delivered <= c'.delivered
    && c.received <= c'.received <= c.received + {n} && c.acks <= c'.acks <= c.acks + {n}
    && (n in c'.acks && n !in c.acks ==>
      && AckReaches(n, Current(c'.packets, limit, c'.delivered))
      && (n in c'.received || Window(n) > Window(Current(c.packets, limit, c.delivered)) + FREE_RELIABLE_WINDOWS))
    && c' == c.(received := c'.received, delivered := c'.delivered, acks := c'.acks)
  }

  /** A copy of the acknowledgement of n comes. */
  ghost predicate Retires(c: Channel, c': Channel, n: nat) {
    n in c.acks && c.flight - {n} <= c'.flight <= c.flight && c' == c.(flight := c'.flight)
  }

  ghost predicate Next(c: Channel, c': Channel, limit: nat) {
    || c' == c || Enqueues(c, c') || Sends(c, c', limit)
    || (exists n :: Delivers(c, c', limit, n)) || (exists n :: Retires(c, c', n))
  }

  lemma NextIsGood(c: Channel, c': Channel, limit: nat)
    requires Good(c, limit) && Next(c, c', limit)
    ensures Good(c', limit)
  {
    if Enqueues(c, c') {
      EnqueuesGood(c, c', limit);
    } else if Sends(c, c', limit) {
      SendsGood(c, c', limit);
    } else if n :| Delivers(c, c', limit, n) {
      DeliversGood(c, c', limit, n);
    } else if n :| Retires(c, c', n) {
      forall m | Acknowledged(c', m) ensures m in c'.acks { assert m == n || Acknowledged(c, m); }
    }
  }

  lemma SendsNext(c: Channel, c': Channel, limit: nat)
    requires Good(c, limit) && Sends(c, c', limit)
    ensures Next(c, c', limit) && Good(c', limit)
  {
    NextIsGood(c, c', limit);
  }

  lemma SendsGood(c: Channel, c': Channel, limit: nat)
    requires Good(c, limit) && Sends(c, c', limit)
    ensures Good(c', limit)
  {
    AfterHas(c.top, c'.top);
    forall n | Acknowledged(c', n) ensures n in c'.acks { assert Acknowledged(c, n); }
    SendsNear(c, c', limit);
  }

  /** The first command of a new window goes out only when the window before has been acknowledged in part. */
  lemma SendsNear(c: Channel, c': Channel, limit: nat)
    requires Good(c, limit) && Sends(c, c', limit)
    ensures Near(c', limit)
  {
    hide UpToDate, Current;
    var start := Window(c'.top) * RELIABLE_WINDOW_SIZE;
    if c.top < start && Window(start) > 1 {
      assert MayBegin(c.flight, c.top, start);
      var m :| 1 <= m <= c.top && m !in c.flight && Window(m) + 1 == Window(start);
      assert Acknowledged(c, m);
    }
  }

  lemma DeliversGood(c: Channel, c': Channel, limit: nat, n: nat)
    requires Good(c, limit) && Delivers(c, c', limit, n)
    ensures Good(c', limit)
  {
    hide InReach, Start;
    if c.delivered < c'.delivered { StartsGrow(c.packets, limit, c.delivered, c'.delivered); }
    forall m | Acknowledged(c', m) ensures m in c'.acks { assert Acknowledged(c, m); }
  }

  lemma AllNumbers(packets: Packets, limit: nat)
    requires limit > 0
    ensures Start(packets, limit, |packets|) == 1 + Total(packets, limit)
  {
    assert packets[..|packets|] == packets;
  }

  lemma EnqueuesGood(c: Channel, c': Channel, limit: nat)
    requires Good(c, limit) && Enqueues(c, c')
    ensures Good(c', limit)
  {
    hide Number, Start, InReach;
    AllNumbers(c.packets, limit);
    AllNumbers(c'.packets, limit);
    SamePrefix(c.packets, c'.packets, limit, |c.packets|);
    SamePrefix(c.packets, c'.packets, limit, c.delivered);
    if |c.packets| < |c'.packets| { StartsGrow(c'.packets, limit, |c.packets|, |c'.packets|); }
    forall i | 0 <= i < |c.packets| ensures Complete(c'.packets, limit, c.received, i) == Complete(c.packets, limit, c.received, i) {
      SameComplete(c.packets, c'.packets, limit, c.received, i);
    }
    if c.delivered == |c.packets| < |c'.packets| {
      NumberBounds(c'.packets, limit, c.delivered, 0);
      assert Number(c'.packets, limit, c.delivered, 0) !in c.received;
    }
    forall m | Acknowledged(c', m) ensures m in c'.acks { assert Acknowledged(c, m); }
  }

  ghost predicate IsRun(run: seq<Channel>, limit: nat) {
    && limit > 0 && |run| > 0 && run[0] == Idle()
    && forall j :: 0 <= j < |run| - 1 ==> Next(run[j], run[j + 1], limit)
  }

  lemma {:induction false} RunIsGood(run: seq<Channel>, limit: nat)
    requires IsRun(run, limit)
    ensures Good(run[|run| - 1], limit)
    decreases |run|
  {
    var last := |run| - 1;
    if last == 0 {
      assert Good(Idle(), limit);
    } else {
      RunIsGood(run[..last], limit);
      NextIsGood(run[last - 1], run[last], limit);
    }
  }

  /** What follows, whatever the network does. */
  ghost predicate Reliable(c: Channel, limit: nat)
    requires limit > 0
  {
    // What the sender has dropped as acknowledged has been received.
    && (forall n {:trigger Acknowledged(c, n)} :: Acknowledged(c, n) ==> n in c.received)
    // Commands in flight have 16-bit numbers of their own.
    && (forall a, b :: a in c.flight && b in c.flight && Wire(a) == Wire(b) ==> a == b)
    // With nothing left to send or to acknowledge, every packet has been delivered.
    && (c.flight == {} && c.top == Total(c.packets, limit) ==> c.delivered == |c.packets|)
  }

  lemma GoodIsReliable(c: Channel, limit: nat)
    requires Good(c, limit)
    ensures Reliable(c, limit)
  {
    hide Number, Start;
    forall a, b | a in c.flight && b in c.flight && Wire(a) == Wire(b) ensures a == b { FlightTells(c.flight, c.top, a, b); }
    if c.flight == {} && c.top == Total(c.packets, limit) && c.delivered < |c.packets| {
      AllNumbers(c.packets, limit);
      forall k | 0 <= k < Span(|c.packets[c.delivered]|, limit) ensures Number(c.packets, limit, c.delivered, k) in c.received {
        NumberBounds(c.packets, limit, c.delivered, k);
        assert Acknowledged(c, Number(c.packets, limit, c.delivered, k));
      }
    }
  }

  lemma RunsAreReliable(run: seq<Channel>, limit: nat)
    requires IsRun(run, limit)
    ensures forall j :: 0 <= j < |run| ==> Reliable(run[j], limit)
  {
    forall j | 0 <= j < |run| ensures Reliable(run[j], limit) {
      RunIsGood(run[..j + 1], limit);
      GoodIsReliable(run[j], limit);
    }
  }

  /** No command that has been sent is further ahead of the receiver than it can tell. */
  lemma Reaches(c: Channel, limit: nat, n: nat)
    requires Good(c, limit) && 1 <= n <= c.top
    ensures var current := Current(c.packets, limit, c.delivered);
      Window(n) < Window(current) + FREE_RELIABLE_WINDOWS && n < current + NUMBERS
  {
    hide UpToDate, Current;
  }

  /** o is a copy of packet i's k-th command, which has been sent. */
  ghost predicate CopyOf(o: Outgoing, packets: Packets, limit: nat, top: nat, i: nat, k: nat) {
    && IsCommand(packets, limit, i, k) && Number(packets, limit, i, k) <= top
    && IsNumbered(o.command, Number(packets, limit, i, k), packets, limit, i, k)
  }

  ghost predicate IsCopy(o: Outgoing, packets: Packets, limit: nat, top: nat) {
    exists i: nat, k: nat :: CopyOf(o, packets, limit, top, i, k)
  }

  lemma StillCopies(wire: seq<Outgoing>, packets: Packets, more: Packets, limit: nat, top: nat, top': nat)
    requires packets <= more && top <= top' && forall j :: 0 <= j < |wire| ==> IsCopy(wire[j], packets, limit, top)
    ensures forall j :: 0 <= j < |wire| ==> IsCopy(wire[j], more, limit, top')
  {
    hide Start;
    forall j | 0 <= j < |wire| ensures IsCopy(wire[j], more, limit, top') {
      var i: nat, k: nat :| CopyOf(wire[j], packets, limit, top, i, k);
      SamePrefix(packets, more, limit, i);
      assert CopyOf(wire[j], more, limit, top', i, k);
    }
  }

  lemma SentAreCopies(q: Queues, m: Numbers, packets: Packets, limit: nat, top: nat, queued: nat, flight: set<nat>)
    requires Queued(q, m, packets, limit, top, queued, flight) && InReach(flight, top)
    ensures forall j :: 0 <= j < |q.sent| ==> IsCopy(q.sent[j], packets, limit, top)
  {
    hide Start, Number;
    forall j | 0 <= j < |q.sent| ensures IsCopy(q.sent[j], packets, limit, top) {
      assert Carries(q.sent[j], m.sent[j], packets, limit);
      var i: nat, k: nat :| IsNumbered(q.sent[j].command, m.sent[j], packets, limit, i, k);
      PendingMember(m, flight, m.sent[j]);
      assert CopyOf(q.sent[j], packets, limit, top, i, k);
    }
  }

  /** Sender, receiver, and the copies that the network may deliver, any number of times and in any order, or lose. */
  class Link {
    const sender: Sender
    const receiver: Receiver
    var wire: seq<Outgoing>
    ghost var acks: seq<nat>

    ghost function State(): Channel
      reads this, sender, receiver
    {
      Channel(sender.packets, sender.top, sender.flight, receiver.received, receiver.delivered, set n | n in acks)
    }

    ghost predicate Valid()
      reads this, sender, sender.reliableWindows, receiver
    {
      && sender.Valid() && receiver.Valid() && sender.limit == receiver.limit && receiver.packets == sender.packets
      && sender.maximumPacketSize <= receiver.maximumPacketSize && Good(State(), sender.limit) == true
      && (forall i :: 0 <= i < |sender.packets| ==>
           |sender.packets[i]| <= receiver.maximumPacketSize && Span(|sender.packets[i]|, sender.limit) <= MAXIMUM_FRAGMENT_COUNT)
      && (forall j :: 0 <= j < |wire| ==> IsCopy(wire[j], sender.packets, sender.limit, sender.top))
      && |acks| == |receiver.acknowledgements|
      && (forall j :: 0 <= j < |acks| ==> receiver.acknowledgements[j] == Wire(acks[j]))
    }

    constructor (fragmentLength: nat, maximumSent: nat, maximumReceived: nat)
      requires fragmentLength > 0 && maximumSent <= maximumReceived
      ensures Valid() && fresh(sender) && fresh(sender.reliableWindows) && fresh(receiver) && State() == Idle()
      ensures sender.limit == fragmentLength
    {
      sender := new Sender(fragmentLength, maximumSent);
      receiver := new Receiver(fragmentLength, maximumReceived);
      wire, acks := [], [];
      new;
      IdleIsGood(fragmentLength);
      EmptyChannel(receiver.incoming, receiver.indices, receiver.packets, receiver.limit, receiver.received, receiver.delivered);
      assert (set n | n in acks) == {};
    }

    method Send(packet: seq<Byte>, open: bool) returns (ok: bool)
      requires Valid()
      modifies sender, receiver
      ensures Valid() && Next(old(State()), State(), sender.limit)
      ensures ok <==> open && |packet| <= sender.maximumPacketSize && Span(|packet|, sender.limit) <= MAXIMUM_FRAGMENT_COUNT
      ensures State() == old(State()).(packets := if ok then old(sender.packets) + [packet] else old(sender.packets))
    {
      hide Good, IsCopy, Settled, Holds;
      ok := sender.Send(packet, open);
      receiver.Extend(sender.packets);
      assert Enqueues(old(State()), State());
      NextIsGood(old(State()), State(), sender.limit);
      StillCopies(wire, old(sender.packets), sender.packets, sender.limit, sender.top, sender.top);
    }

    /** What enet_protocol_check_outgoing_commands sends is in the network from now on. */
    method Flush(serviceTime: nat, windowBytes: nat, roundTripTime: nat, space: nat, slots: nat)
      requires Valid()
      modifies this, sender, sender.reliableWindows
      ensures Valid() && Next(old(State()), State(), sender.limit)
      ensures old(sender.sent) <= sender.sent && wire == old(wire) + sender.sent[|old(sender.sent)|..]
      ensures sender.SentUntilStopped(Queues(old(sender.sent), old(sender.outgoing)), windowBytes, space, slots)
    {
      hide Good, IsCopy, Settled, Holds, InReach, Queued, MayBegin, MaySendNext, Space, Size, Counted, Total, After, Next, Sender.SentUntilStopped;
      ghost var before := State();
      var already := sender.sent;
      var left, free := sender.CheckOutgoing(serviceTime, windowBytes, roundTripTime, space, slots);
      QueuedTop(Queues(sender.sent, sender.outgoing), sender.numbers, sender.packets, sender.limit, sender.top, sender.queued, sender.flight);
      SendsNext(before, State(), sender.limit);
      StillCopies(wire, sender.packets, sender.packets, sender.limit, old(sender.top), sender.top);
      SentAreCopies(Queues(sender.sent, sender.outgoing), sender.numbers, sender.packets, sender.limit, sender.top, sender.queued, sender.flight);
      wire := wire + sender.sent[|already|..];
    }

    method Timeouts(serviceTime: nat)
      requires Valid()
      modifies sender
      ensures Valid() && State() == old(State())
    {
      hide Good, IsCopy, Settled, Holds, InReach, Queued;
      sender.CheckTimeouts(serviceTime);
    }

    /** The network delivers a copy of packet i's k-th command; copies of packets too far behind are gone. */
    method Deliver(j: nat, full: bool, ghost i: nat, ghost k: nat)
      requires Valid() && j < |wire|
      requires CopyOf(wire[j], sender.packets, sender.limit, sender.top, i, k)
      requires Recent(Start(sender.packets, sender.limit, i), Current(sender.packets, sender.limit, receiver.delivered))
      modifies this, receiver
      ensures Valid() && Next(old(State()), State(), sender.limit) && wire == old(wire)
      ensures var n, fails := Number(sender.packets, sender.limit, i, k), full && old(receiver.IsNew(i));
        && receiver.received == (if old(receiver.TakesPacket(i)) && !fails then old(receiver.received) + {n} else old(receiver.received))
        && acks == (if !fails && AckReaches(n, Current(sender.packets, sender.limit, receiver.delivered)) then old(acks) + [n] else old(acks))
    {
      hide Good, IsCopy, Settled, Holds, InReach, Queued, Start, AckReaches;
      ghost var before, n := State(), Number(sender.packets, sender.limit, i, k);
      NumberBounds(sender.packets, sender.limit, i, k);
      Reaches(before, sender.limit, n);
      ReceiverState(receiver.incoming, receiver.indices, receiver.packets, receiver.limit, receiver.received, receiver.delivered, before);
      var acknowledged := receiver.HandleCommand(wire[j].command, full, i, k);
      if acknowledged {
        SetOfMore(acks, n);
        acks := acks + [n];
        CommandNumber(sender.packets, sender.limit, i, k);
      }
      ReceiverState(receiver.incoming, receiver.indices, receiver.packets, receiver.limit, receiver.received, receiver.delivered, State());
      assert Delivers(before, State(), sender.limit, n);
      NextIsGood(before, State(), sender.limit);
    }

    /** The network delivers a copy of an acknowledgement; copies that are a whole lap of numbers behind are gone. */
    method Acknowledge(j: nat)
      requires Valid() && j < |receiver.acknowledgements| && sender.top < acks[j] + NUMBERS
      modifies sender, sender.reliableWindows
      ensures Valid() && Next(old(State()), State(), sender.limit)
      ensures State() == old(State()).(flight := old(sender.flight) - {acks[j]})
    {
      hide Good, IsCopy, Settled, Holds, Queued;
      ghost var before := State();
      assert acks[j] in before.acks;
      AcksBehind(before, sender.limit, acks[j]);
      var found;
      ghost var m;
      found, m := sender.RemoveSent(receiver.acknowledgements[j]);
      if found { SameWire(m, acks[j]); }
      assert Retires(before, State(), acks[j]);
      NextIsGood(before, State(), sender.limit);
    }

    /** One lap behind, a copy of an acknowledgement retires the newest command, which nobody has acknowledged. */
    method AcknowledgeLate(j: nat)
      requires Valid() && j < |receiver.acknowledgements| && sender.top == acks[j] + NUMBERS
      requires sender.top in sender.flight && sender.top !in acks
      modifies sender, sender.reliableWindows
      ensures State() == old(State()).(flight := old(sender.flight) - {sender.top}) && !Good(State(), sender.limit)
    {
      hide Good, IsCopy, Settled, Holds, Queued;
      ghost var before := State();
      LapBehind(before, sender.limit);
      var found;
      ghost var m;
      found, m := sender.RemoveSent(receiver.acknowledgements[j]);
      NeverAcknowledged(before, State(), sender.limit);
    }
  }

  /** The number of the command a lap before the newest one is the newest one's, and no other's in flight. */
  lemma LapBehind(c: Channel, limit: nat)
    requires Good(c, limit) && c.top >= NUMBERS && c.top in c.flight
    ensures forall m :: m in c.flight ==> (Wire(m) == Wire(c.top - NUMBERS) <==> m == c.top)
  {
    hide UpToDate, Near, Wire;
    var n := c.top - NUMBERS;
    SameOnWire(c.top);
    forall m | m in c.flight && Wire(m) == Wire(n) ensures m == c.top { FlightTells(c.flight, c.top, m, c.top); }
  }

  lemma SameOnWire(n: nat)
    requires n >= NUMBERS
    ensures Wire(n - NUMBERS) == Wire(n)
  {
  }

  lemma NeverAcknowledged(c: Channel, c': Channel, limit: nat)
    requires Good(c, limit) && c.top in c.flight && c.top !in c.acks && c' == c.(flight := c.flight - {c.top})
    ensures !Good(c', limit)
  {
    assert Acknowledged(c', c'.top);
  }

  /** At any time the packets moved to dispatchedCommands are the first ones queued, each once and in order. */
  lemma DispatchedInOrder(link: Link)
    requires link.Valid()
    ensures link.receiver.dispatched <= link.sender.packets
    ensures Reliable(link.State(), link.sender.limit)
    ensures link.sender.flight == {} && link.sender.outgoing == [] ==> link.receiver.dispatched == link.sender.packets
  {
    hide Good, Reliable;
    var s := link.sender;
    GoodIsReliable(link.State(), s.limit);
    if s.flight == {} && s.outgoing == [] {
      NothingLeft(Queues(s.sent, s.outgoing), s.numbers, s.packets, s.limit, s.top, s.queued, s.flight);
      AllDelivered(link.State(), s.limit);
    }
  }

  lemma NothingLeft(q: Queues, m: Numbers, packets: Packets, limit: nat, top: nat, queued: nat, flight: set<nat>)
    requires Queued(q, m, packets, limit, top, queued, flight) && q.outgoing == []
    ensures top == queued
  {
  }

  lemma AllDelivered(c: Channel, limit: nat)
    requires limit > 0 && Reliable(c, limit) && c.flight == {} && c.top == Total(c.packets, limit)
    ensures c.delivered == |c.packets|
  {
  }

  lemma IdleIsGood(limit: nat)
    requires limit > 0
    ensures Good(Idle(), limit)
  {
  }

  lemma EmptyChannel(incoming: seq<Incoming>, indices: seq<nat>, packets: Packets, limit: nat, received: set<nat>, delivered: nat)
    requires Holds(incoming, indices, packets, limit, received, delivered) && packets == []
    ensures delivered == 0
  {
  }

  lemma QueuedTop(q: Queues, m: Numbers, packets: Packets, limit: nat, top: nat, queued: nat, flight: set<nat>)
    requires Queued(q, m, packets, limit, top, queued, flight)
    ensures top <= queued
  {
  }

  lemma ReceiverState(incoming: seq<Incoming>, indices: seq<nat>, packets: Packets, limit: nat, received: set<nat>, delivered: nat, c: Channel)
    requires Holds(incoming, indices, packets, limit, received, delivered) && Settled(packets, limit, received, delivered)
    requires c.packets == packets && c.received == received && c.delivered == delivered
    ensures UpToDate(c, limit)
  {
  }

  lemma SetOfMore(s: seq<nat>, n: nat)
    ensures (set x | x in s + [n]) == (set x | x in s) + {n}
  {
  }

  lemma CommandNumber(packets: Packets, limit: nat, i: nat, k: nat)
    requires IsCommand(packets, limit, i, k)
    ensures CommandOf(packets[i], limit, Start(packets, limit, i), k).number == Wire(Number(packets, limit, i, k))
  {
    Wholes(packets, limit, i, k);
  }

  /** An acknowledged command is at most a lap ahead of any in flight. */
  lemma AcksBehind(c: Channel, limit: nat, n: nat)
    requires Good(c, limit) && n in c.acks
    ensures n <= c.top && forall m :: m in c.flight ==> m <= c.top < m + NUMBERS
  {
  }
}
