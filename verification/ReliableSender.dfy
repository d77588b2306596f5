/** The sending side of a channel: enet_peer_send, and the parts of protocol.c that send, repeat and retire its commands. */
module ReliableSender {
  import opened Bytes
  import opened SequenceNumbers
  import opened Fragmentation
  import opened Numbering
  import opened SendWindow

  /** commandSizes */
  function CommandSize(command: Command): nat { if command.SendReliable? then 6 else 24 }

  /** What the commands take of a datagram: a header of 6 bytes, or 24 for a fragment, and the data. */
  function Space(q: seq<Outgoing>): nat {
    if q == [] then 0 else
      var last := q[|q| - 1].command;
      Space(q[..|q| - 1]) + (if last.SendReliable? then 6 else 24) + |last.data|
  }

  /** Command n may be sent: it starts no window, or a command of the window before has been acknowledged. */
  ghost predicate MayBegin(flight: set<nat>, top: nat, n: nat) {
    n % RELIABLE_WINDOW_SIZE == 0 && Window(n) > 1 ==> exists m :: 1 <= m <= top && m !in flight && Window(m) + 1 == Window(n)
  }

  /** A window that is not full in flight has a command that has been acknowledged. */
  lemma StartsMayBegin(flight: set<nat>, top: nat, counts: seq<nat>, used: bv16)
    requires Counted(flight, counts, used) && MayStart(counts, used, Wire(top + 1))
    ensures MayBegin(flight, top, top + 1)
  {
    hide Counted, MayStart;
    if (top + 1) % RELIABLE_WINDOW_SIZE == 0 { SomeAcknowledged(flight, top, counts, used); }
  }

  /** A command as it is after being sent once more. */
  function Again(o: Outgoing, serviceTime: nat, roundTripTime: nat): Outgoing {
    o.(sendAttempts := o.sendAttempts + 1, sentTime := serviceTime,
       roundTripTimeout := if o.roundTripTimeout == 0 then roundTripTime else o.roundTripTimeout)
  }

  predicate IsDue(o: Outgoing, serviceTime: nat) { serviceTime - o.sentTime >= o.roundTripTimeout }

  /** The commands of q whose time is not up. */
  function InTime(q: seq<Outgoing>, serviceTime: nat): seq<Outgoing> {
    if q == [] then [] else
      var o := q[|q| - 1];
      InTime(q[..|q| - 1], serviceTime) + if serviceTime < o.sentTime + o.roundTripTimeout then [o] else []
  }

  /** The others, which are given twice the time. */
  function Overdue(q: seq<Outgoing>, serviceTime: nat): seq<Outgoing> {
    if q == [] then [] else
      var o := q[|q| - 1];
      Overdue(q[..|q| - 1], serviceTime)
        + if serviceTime < o.sentTime + o.roundTripTimeout then [] else [o.(roundTripTimeout := 2 * o.roundTripTimeout)]
  }

  /** A command sent is due when its time is up, and one sent again when twice the time is. */
  lemma DueTwiceAsLate(o: Outgoing, sentAt: nat, roundTripTime: nat, dueAt: nat, sentAgainAt: nat)
    requires dueAt >= sentAt + (if o.roundTripTimeout == 0 then roundTripTime else o.roundTripTimeout)
    ensures var time, first := if o.roundTripTimeout == 0 then roundTripTime else o.roundTripTimeout, Again(o, sentAt, roundTripTime);
      && first.number == o.number && first.command == o.command && first.sendAttempts == o.sendAttempts + 1
      && (forall t: nat :: IsDue(first, t) <==> t >= sentAt + time)
      && |Overdue([first], dueAt)| == 1
      && var again := Again(Overdue([first], dueAt)[0], sentAgainAt, roundTripTime);
         && again.number == o.number && again.command == o.command && again.sendAttempts == o.sendAttempts + 2
         && (time > 0 ==> forall t: nat :: IsDue(again, t) <==> t >= sentAgainAt + 2 * time)
  {
    var first := Again(o, sentAt, roundTripTime);
    assert [first][..0] == [] && Overdue([], dueAt) == [];
  }

  class Sender {
    var outgoingReliableSequenceNumber: nat
    const reliableWindows: array<nat>
    var usedReliableWindows: bv16
    var outgoing: seq<Outgoing>
    var sent: seq<Outgoing>
    var reliableDataInTransit: int
    const limit: nat
    const maximumPacketSize: nat
    ghost var packets: Packets
    ghost var queued: nat
    ghost var top: nat
    ghost var flight: set<nat>
    ghost var numbers: Numbers

    /** queued commands have their number, top of them have been sent, and those of flight are not acknowledged. */
    ghost predicate Consistent()
      reads this, reliableWindows
    {
      && limit > 0 && reliableWindows.Length == RELIABLE_WINDOWS
      && Queued(Queues(sent, outgoing), numbers, packets, limit, top, queued, flight) == true
      && InReach(flight, top) == true && Counted(flight, reliableWindows[..], usedReliableWindows) == true
      && reliableDataInTransit == Size(sent)
      && outgoingReliableSequenceNumber == Wire(queued) && queued <= Total(packets, limit)
    }

    ghost predicate Valid()
      reads this, reliableWindows
    {
      Consistent() && queued == Total(packets, limit)
    }

    constructor (fragmentLength: nat, maximumPacketSize: nat)
      requires fragmentLength > 0
      ensures Valid() && fresh(reliableWindows) && limit == fragmentLength && this.maximumPacketSize == maximumPacketSize
      ensures packets == [] && top == 0 && flight == {}
    {
      outgoingReliableSequenceNumber, usedReliableWindows := 0, 0;
      reliableWindows := new nat[RELIABLE_WINDOWS](_ => 0);
      outgoing, sent, reliableDataInTransit := [], [], 0;
      limit, this.maximumPacketSize := fragmentLength, maximumPacketSize;
      packets, queued, top, flight, numbers := [], 0, 0, {}, Numbers([], [], 0);
      new;
      NothingCounted(reliableWindows[..]);
    }

    /** enet_peer_setup_outgoing_command */
    method SetUpOutgoing(command: Command, ghost i: nat, ghost k: nat)
      requires Consistent() && queued < Total(packets, limit)
      requires IsNumbered(command.(number := Wire(queued + 1)), queued + 1, packets, limit, i, k)
      modifies this
      ensures Consistent() && packets == old(packets) && queued == old(queued) + 1
      ensures top == old(top) && flight == old(flight) && sent == old(sent)
      ensures outgoing == old(outgoing) + [Outgoing(Wire(queued), command.(number := Wire(queued)), 0, 0, 0)]
    {
      hide Queued, Counted, Total;
      WireNext(queued);
      outgoingReliableSequenceNumber := (outgoingReliableSequenceNumber + 1) % NUMBERS;
      var o := Outgoing(outgoingReliableSequenceNumber, command.(number := outgoingReliableSequenceNumber), 0, 0, 0);
      assert Carries(o, queued + 1, packets, limit);
      SetUp(Queues(sent, outgoing), numbers, packets, limit, top, queued, flight, o);
      outgoing := outgoing + [o];
      numbers := numbers.(outgoing := numbers.outgoing + [queued + 1]);
      queued := queued + 1;
    }

    /** enet_peer_send for a reliable packet; open: the peer is connected and has the channel. */
    method Send(packet: seq<Byte>, open: bool) returns (ok: bool)
      requires Valid()
      modifies this
      ensures Valid() && top == old(top) && flight == old(flight)
      ensures ok <==> open && |packet| <= maximumPacketSize && Span(|packet|, limit) <= MAXIMUM_FRAGMENT_COUNT
      ensures packets == if ok then old(packets) + [packet] else old(packets)
      ensures sent == old(sent) && |outgoing| == |old(outgoing)| + if ok then Span(|packet|, limit) else 0
      ensures old(outgoing) <= outgoing
      ensures forall j :: |old(outgoing)| <= j < |outgoing| ==> outgoing[j] == Outgoing(outgoing[j].number, outgoing[j].command, 0, 0, 0)
    {
      hide Queued, Counted, Total, Start, Span, Offset, Piece, Wire;
      if !open || |packet| > maximumPacketSize { return false; }
      if |packet| <= limit {
        ghost var i := |packets|;
        PacketQueued(packet);
        OneSpan(|packet|, limit);
        SetUpOutgoing(SendReliable(0, packet), i, 0);
        return true;
      }
      var fragmentCount, fragments := Split(|packet|, limit);
      if fragmentCount > MAXIMUM_FRAGMENT_COUNT { return false; }
      ghost var i := |packets|;
      PacketQueued(packet);
      WireNext(queued);
      var startSequenceNumber := (outgoingReliableSequenceNumber + 1) % NUMBERS;
      var k := 0;
      while k < |fragments|
        invariant k <= |fragments| && Consistent() && packets == old(packets) + [packet]
        invariant queued == old(queued) + k && top == old(top) && flight == old(flight)
        invariant sent == old(sent) && |outgoing| == |old(outgoing)| + k && old(outgoing) <= outgoing
        invariant forall j :: |old(outgoing)| <= j < |outgoing| ==> outgoing[j] == Outgoing(outgoing[j].number, outgoing[j].command, 0, 0, 0)
      {
        var f := fragments[k];
        PieceBounds(|packet|, limit, k);
        FragmentPiece(packet, limit, k);
        assert f == FragmentOf(|packet|, limit, k);
        SetUpOutgoing(SendFragment(0, startSequenceNumber, fragmentCount, f.number, f.offset, |packet|,
                                   packet[f.offset..f.offset + f.length]), i, k);
        k := k + 1;
      }
      return true;
    }

    /** The packet will have the numbers after those in use. */
    ghost method PacketQueued(packet: seq<Byte>)
      requires Valid()
      modifies `packets
      ensures Consistent() && packets == old(packets) + [packet]
      ensures Total(packets, limit) == queued + Span(|packet|, limit) && Start(packets, limit, |packets| - 1) == queued + 1
    {
      QueuedMore(Queues(sent, outgoing), numbers, packets, packets + [packet], limit, top, queued, flight);
      assert (packets + [packet])[..|packets|] == packets;
      packets := packets + [packet];
    }

    /** enet_protocol_check_outgoing_commands for this channel's reliable commands: sends the queued ones in order, until the
        windows, the data in transit or the datagram stop it; left and free are what the datagram still has of space and slots. */
    method CheckOutgoing(serviceTime: nat, windowBytes: nat, roundTripTime: nat, space: nat, slots: nat)
      returns (left: nat, free: nat)
      requires Valid()
      modifies this, reliableWindows
      ensures Valid() && packets == old(packets) && top >= old(top)
      ensures flight == old(flight) + After(old(top), top)
      ensures forall n :: old(top) < n <= top ==> MayBegin(old(flight), old(top), n)
      ensures old(sent) <= sent && |sent| + |outgoing| == old(|sent| + |outgoing|)
      ensures free == slots - (|sent| - |old(sent)|) && left == space - Space(sent[|old(sent)|..])
      ensures forall j :: |old(sent)| <= j < |sent| ==> sent[j] == Again(old(outgoing)[j - |old(sent)|], serviceTime, roundTripTime)
      ensures reliableDataInTransit <= windowBytes || sent == old(sent)
      ensures SentUntilStopped(Queues(old(sent), old(outgoing)), windowBytes, space, slots)
    {
      hide Queued, InReach, Counted, Total, MayStart, Mask, Bit, Wire, Slot, MayBegin, MaySendNext, Space, CommandSize, Size;
      left, free := space, slots;
      NoSpace(sent);
      ghost var n := 0;
      while outgoing != []
        invariant Valid() && packets == old(packets) && top >= old(top)
        invariant flight == old(flight) + After(old(top), top)
        invariant forall n :: old(top) < n <= top ==> MayBegin(old(flight), old(top), n)
        invariant n <= |old(outgoing)| && free == slots - n && outgoing == old(outgoing)[n..]
        invariant old(sent) <= sent && |sent| == |old(sent)| + n
        invariant forall j :: |old(sent)| <= j < |sent| ==> sent[j] == Again(old(outgoing)[j - |old(sent)|], serviceTime, roundTripTime)
        invariant reliableDataInTransit <= windowBytes || sent == old(sent)
        invariant left == space - Space(sent[|old(sent)|..])
        decreases |outgoing|
      {
        var o := outgoing[0];
        FirstOfOutgoing(Queues(sent, outgoing), numbers, packets, limit, top, queued, flight);
        StartsExactly(flight, top, reliableWindows[..], usedReliableWindows);
        SpaceMore(sent[|old(sent)|..], o);
        if o.sendAttempts < 1 && !StartAllowed(o.number) { break; }
        if reliableDataInTransit + |o.command.data| > windowBytes { break; }
        var size := CommandSize(o.command);
        if free == 0 || left < size || left < size + |o.command.data| { break; }
        ghost var flight0, top0, sent0 := flight, top, sent;
        SendNext(serviceTime, roundTripTime);
        if top > top0 { BeginsAsBefore(old(flight), old(top), flight0, top0, top); }
        OneMoreSpace(old(sent), sent0, sent[|sent| - 1]);
        n := n + 1;
        left, free := left - size - |o.command.data|, free - 1;
      }
    }

    /** Since before, commands have gone from outgoing to sent until something kept the next one. */
    ghost predicate SentUntilStopped(before: Queues, windowBytes: nat, space: nat, slots: nat)
      reads this
    {
      var n := |sent| - |before.sent|;
      && 0 <= n <= |before.outgoing| && outgoing == before.outgoing[n..]
      && (outgoing != [] ==> Stopped(outgoing[0], windowBytes, space - Space(sent[|before.sent|..]), slots - n))
    }

    /** What keeps the first command from being sent. */
    ghost predicate Stopped(o: Outgoing, windowBytes: nat, left: int, free: int)
      reads this
    {
      || (o.sendAttempts == 0 && !MaySendNext(flight, top))
      || reliableDataInTransit + |o.command.data| > windowBytes
      || free == 0 || left < Space([o])
    }

    /** Whether the windows let a command be sent for the first time. */
    predicate StartAllowed(number: nat)
      requires reliableWindows.Length == RELIABLE_WINDOWS && number < NUMBERS
      reads this, reliableWindows
    {
      MayStart(reliableWindows[..], usedReliableWindows, number)
    }

    /** The first of outgoing goes to sent, and its window counts it when it goes for the first time. */
    method SendNext(serviceTime: nat, roundTripTime: nat)
      requires Valid() && outgoing != []
      requires outgoing[0].number < NUMBERS && (outgoing[0].sendAttempts < 1 ==> StartAllowed(outgoing[0].number))
      modifies this, reliableWindows
      ensures Valid() && packets == old(packets)
      ensures old(top) <= top <= old(top) + 1 && flight == old(flight) + After(old(top), top)
      ensures top > old(top) ==> MayBegin(old(flight), old(top), top)
      ensures outgoing == old(outgoing[1..]) && sent == old(sent) + [Again(old(outgoing[0]), serviceTime, roundTripTime)]
      ensures reliableDataInTransit == old(reliableDataInTransit) + |old(outgoing[0].command.data)|
    {
      hide Queued, InReach, Counted, Total, MayStart, Mask, Bit, Wire, MayBegin;
      var o := outgoing[0];
      ghost var q := Queues(sent, outgoing);
      FirstOfOutgoing(q, numbers, packets, limit, top, queued, flight);
      var timeout := if o.roundTripTimeout == 0 then roundTripTime else o.roundTripTimeout;
      var o' := o.(sendAttempts := o.sendAttempts + 1, roundTripTimeout := timeout, sentTime := serviceTime);
      if o.sendAttempts < 1 {
        StartsInReach(flight, top, reliableWindows[..], usedReliableWindows);
        StartsMayBegin(flight, top, reliableWindows[..], usedReliableWindows);
        CountedMore(flight, reliableWindows[..], usedReliableWindows, top + 1);
        SentFirst(q, numbers, packets, limit, top, queued, flight, o');
        WireSlot(top + 1);
        var w := Window(o.number);
        usedReliableWindows := usedReliableWindows | Bit(w);
        ghost var counts := reliableWindows[..];
        reliableWindows[w] := reliableWindows[w] + 1;
        assert reliableWindows[..] == counts[w := counts[w] + 1];
        top, flight, numbers := top + 1, flight + {top + 1}, Numbers(numbers.sent + [top + 1], numbers.outgoing[1..], 0);
      } else {
        SentAgain(q, numbers, packets, limit, top, queued, flight, o');
        numbers := Numbers(numbers.sent + [numbers.outgoing[0]], numbers.outgoing[1..], numbers.retries - 1);
      }
      SizeJoined(sent, [o']);
      outgoing, sent := outgoing[1..], sent + [o'];
      reliableDataInTransit := reliableDataInTransit + |o.command.data|;
    }

    /** enet_protocol_check_timeouts, for a peer that it does not give up: the commands whose time is up go to the front of
        outgoing, in their order. */
    method CheckTimeouts(serviceTime: nat)
      requires Valid()
      modifies this
      ensures Valid() && packets == old(packets) && top == old(top) && flight == old(flight)
      ensures sent == InTime(old(sent), serviceTime) && outgoing == Overdue(old(sent), serviceTime) + old(outgoing)
    {
      hide Queued, Counted, Total, Wire, InReach, InTime, Overdue, With, Without;
      NothingSeen(sent, outgoing, serviceTime);
      var current, position := 0, 0;
      ghost var seen := 0;
      while current < |sent|
        invariant Valid() && packets == old(packets) && top == old(top) && flight == old(flight)
        invariant seen <= |old(sent)| && sent == InTime(old(sent)[..seen], serviceTime) + old(sent)[seen..]
        invariant current == |InTime(old(sent)[..seen], serviceTime)|
        invariant outgoing == Overdue(old(sent)[..seen], serviceTime) + old(outgoing)
        invariant position == |Overdue(old(sent)[..seen], serviceTime)| <= numbers.retries
        decreases |sent| - current
      {
        ghost var kept, moved := InTime(old(sent)[..seen], serviceTime), Overdue(old(sent)[..seen], serviceTime);
        SeenOne(old(sent), seen, serviceTime);
        TakeOut(kept, old(sent)[seen], old(sent)[seen + 1..]);
        seen := seen + 1;
        if !IsDue(sent[current], serviceTime) {
          current := current + 1;
          continue;
        }
        PutIn(moved, sent[current].(roundTripTimeout := 2 * sent[current].roundTripTimeout), old(outgoing));
        MoveOverdue(current, position);
        position := position + 1;
      }
      assert old(sent)[..seen] == old(sent);
    }

    /** The command at current goes from sent to position in outgoing. */
    method MoveOverdue(current: nat, position: nat)
      requires Valid() && current < |sent| && position <= numbers.retries && position <= |outgoing|
      modifies this
      ensures Valid() && packets == old(packets) && top == old(top) && flight == old(flight)
      ensures sent == Without(old(sent), current) && numbers.retries == old(numbers.retries) + 1
      ensures var o := old(sent)[current];
        outgoing == With(old(outgoing), position, o.(roundTripTimeout := 2 * o.roundTripTimeout))
    {
      hide Queued, Counted, Total, Wire, With, Without;
      var o := sent[current];
      var o' := o.(roundTripTimeout := 2 * o.roundTripTimeout);
      reliableDataInTransit := reliableDataInTransit - |o.command.data|;
      Lengths(Queues(sent, outgoing), numbers, packets, limit, top, queued, flight);
      WasSent(Queues(sent, outgoing), numbers, packets, limit, top, queued, flight, current);
      TimedOut(Queues(sent, outgoing), numbers, packets, limit, top, queued, flight, current, position, o');
      WithoutSize(sent, current);
      numbers := Numbers(Without(numbers.sent, current), With(numbers.outgoing, position, numbers.sent[current]), numbers.retries + 1);
      sent, outgoing := Without(sent, current), With(outgoing, position, o');
    }

    /** enet_protocol_remove_sent_reliable_command: the one command in flight with this number goes; the search among the
        outgoing commands, which stops at the first that has never been sent, misses none. */
    method RemoveSent(number: nat) returns (found: bool, ghost n: nat)
      requires Valid() && number < NUMBERS
      modifies this, reliableWindows
      ensures Valid() && packets == old(packets) && top == old(top)
      ensures found ==> n in old(flight) && Wire(n) == number && flight == old(flight) - {n}
      ensures !found ==> flight == old(flight) && forall n :: n in flight ==> Wire(n) != number
      ensures !found ==> sent == old(sent) && outgoing == old(outgoing)
      ensures found ==>
        || (outgoing == old(outgoing) && exists j :: 0 <= j < |old(sent)| && sent == Without(old(sent), j))
        || (sent == old(sent) && exists j :: 0 <= j < |old(outgoing)| && outgoing == Without(old(outgoing), j))
    {
      hide Queued, InReach, Counted, Total, Bit, Wire;
      ghost var q := Queues(sent, outgoing);
      var current := 0;
      Lengths(q, numbers, packets, limit, top, queued, flight);
      while current < |sent| && sent[current].number != number
        invariant current <= |sent| && forall j :: 0 <= j < current ==> sent[j].number != number
      {
        current := current + 1;
      }
      if current < |sent| {
        n := numbers.sent[current];
        SentNumber(q, numbers, packets, limit, top, queued, flight, current);
        AckedSent(q, numbers, packets, limit, top, queued, flight, current);
        WithoutSize(sent, current);
        numbers := numbers.(sent := Without(numbers.sent, current));
        reliableDataInTransit := reliableDataInTransit - |sent[current].command.data|;
        sent := Without(sent, current);
      } else {
        current := 0;
        while current < |outgoing| && outgoing[current].sendAttempts >= 1 && outgoing[current].number != number
          invariant current <= |outgoing| && forall j :: 0 <= j < current ==> outgoing[j].number != number
          invariant forall j :: 0 <= j < current ==> outgoing[j].sendAttempts >= 1
        {
          current := current + 1;
        }
        if current == |outgoing| || outgoing[current].sendAttempts < 1 {
          NoneInFlight(q, numbers, packets, limit, top, queued, flight, number, current);
          found, n := false, 0;
          return;
        }
        n := numbers.outgoing[current];
        OutgoingNumber(q, numbers, packets, limit, top, queued, flight, current);
        AckedOutgoing(q, numbers, packets, limit, top, queued, flight, current);
        numbers := Numbers(numbers.sent, Without(numbers.outgoing, current), numbers.retries - 1);
        outgoing := Without(outgoing, current);
      }
      found := true;
      FreeWindow(number, n);
    }

    /** The acknowledged command's window. */
    method FreeWindow(number: nat, ghost n: nat)
      requires limit > 0 && n in flight && number == Wire(n) && queued == Total(packets, limit) && InReach(flight, top)
      requires reliableWindows.Length == RELIABLE_WINDOWS && Counted(flight, reliableWindows[..], usedReliableWindows)
      requires Queued(Queues(sent, outgoing), numbers, packets, limit, top, queued, flight - {n})
      requires reliableDataInTransit == Size(sent) && outgoingReliableSequenceNumber == Wire(queued)
      modifies `usedReliableWindows, `flight, reliableWindows
      ensures Valid() && flight == old(flight) - {n}
    {
      hide Queued, Counted, Total, Bit, Wire, Slot, Busy;
      CountedLess(flight, reliableWindows[..], usedReliableWindows, n);
      WireSlot(n);
      var w := Window(number);
      ghost var counts, used := reliableWindows[..], usedReliableWindows;
      if reliableWindows[w] > 0 {
        reliableWindows[w] := reliableWindows[w] - 1;
        assert reliableWindows[..] == counts[w := counts[w] - 1];
        if reliableWindows[w] == 0 { usedReliableWindows := usedReliableWindows & !Bit(w); }
      }
      assert usedReliableWindows == Freed(counts, used, Slot(n));
      flight := flight - {n};
    }
  }

  lemma Lengths(q: Queues, m: Numbers, packets: Packets, limit: nat, top: nat, queued: nat, flight: set<nat>)
    requires Queued(q, m, packets, limit, top, queued, flight)
    ensures |q.sent| == |m.sent| && |q.outgoing| == |m.outgoing| && m.retries <= |m.outgoing|
  {
  }

  lemma WasSent(q: Queues, m: Numbers, packets: Packets, limit: nat, top: nat, queued: nat, flight: set<nat>, at: nat)
    requires Queued(q, m, packets, limit, top, queued, flight) && at < |q.sent|
    ensures q.sent[at].sendAttempts > 0 && |m.sent| == |q.sent|
  {
  }

  lemma SentNumber(q: Queues, m: Numbers, packets: Packets, limit: nat, top: nat, queued: nat, flight: set<nat>, at: nat)
    requires Queued(q, m, packets, limit, top, queued, flight) && at < |q.sent|
    ensures |m.sent| == |q.sent| && q.sent[at].number == Wire(m.sent[at])
  {
    assert Carries(q.sent[at], m.sent[at], packets, limit);
  }

  lemma OutgoingNumber(q: Queues, m: Numbers, packets: Packets, limit: nat, top: nat, queued: nat, flight: set<nat>, at: nat)
    requires Queued(q, m, packets, limit, top, queued, flight) && at < |q.outgoing|
    ensures |m.outgoing| == |q.outgoing| && q.outgoing[at].number == Wire(m.outgoing[at])
    ensures q.outgoing[at].sendAttempts >= 1 ==> at < m.retries
  {
    assert Carries(q.outgoing[at], m.outgoing[at], packets, limit);
  }

  lemma NoneInFlight(q: Queues, m: Numbers, packets: Packets, limit: nat, top: nat, queued: nat, flight: set<nat>, number: nat, at: nat)
    requires Queued(q, m, packets, limit, top, queued, flight) && at <= |q.outgoing|
    requires forall j :: 0 <= j < |q.sent| ==> q.sent[j].number != number
    requires forall j :: 0 <= j < at ==> q.outgoing[j].number != number
    requires at < |q.outgoing| ==> q.outgoing[at].sendAttempts < 1
    ensures forall n :: n in flight ==> Wire(n) != number
  {
    hide Wire;
    forall n | n in flight ensures Wire(n) != number {
      PendingMember(m, flight, n);
      if n in m.sent {
        var j :| 0 <= j < |m.sent| && m.sent[j] == n;
        assert Carries(q.sent[j], m.sent[j], packets, limit);
      } else {
        var j :| 0 <= j < m.retries && m.outgoing[..m.retries][j] == n;
        assert Carries(q.outgoing[j], m.outgoing[j], packets, limit);
      }
    }
  }

  lemma SpaceMore(q: seq<Outgoing>, o: Outgoing)
    ensures Space(q + [o]) == Space(q) + CommandSize(o.command) + |o.command.data| && Space([o]) == CommandSize(o.command) + |o.command.data|
  {
    assert (q + [o])[..|q|] == q && [o][..0] == [];
  }

  lemma NoSpace(q: seq<Outgoing>)
    ensures Space(q[|q|..]) == 0
  {
  }

  lemma OneMoreSpace(before: seq<Outgoing>, sent: seq<Outgoing>, o: Outgoing)
    requires before <= sent
    ensures Space((sent + [o])[|before|..]) == Space(sent[|before|..]) + CommandSize(o.command) + |o.command.data|
  {
    SpaceMore(sent[|before|..], o);
    assert (sent + [o])[|before|..] == sent[|before|..] + [o];
  }

  lemma TakeOut<T>(a: seq<T>, x: T, b: seq<T>)
    ensures Without(a + ([x] + b), |a|) == a + b && (a + ([x] + b))[|a|] == x && a + ([x] + b) == a + [x] + b
  {
  }

  lemma PutIn<T>(a: seq<T>, x: T, b: seq<T>)
    ensures With(a + b, |a|, x) == a + [x] + b
  {
  }

  lemma NothingSeen(q: seq<Outgoing>, r: seq<Outgoing>, serviceTime: nat)
    ensures InTime(q[..0], serviceTime) + q[0..] == q && Overdue(q[..0], serviceTime) + r == r
    ensures InTime(q[..0], serviceTime) == [] && Overdue(q[..0], serviceTime) == []
  {
  }

  lemma SeenOne(q: seq<Outgoing>, n: nat, serviceTime: nat)
    requires n < |q|
    ensures InTime(q[..n + 1], serviceTime) == InTime(q[..n], serviceTime) + if IsDue(q[n], serviceTime) then [] else [q[n]]
    ensures Overdue(q[..n + 1], serviceTime)
      == Overdue(q[..n], serviceTime) + if IsDue(q[n], serviceTime) then [q[n].(roundTripTimeout := 2 * q[n].roundTripTimeout)] else []
    ensures q[n..] == [q[n]] + q[n + 1..]
  {
    assert q[..n + 1][..n] == q[..n];
  }

  lemma BeginsAsBefore(flight0: set<nat>, top0: nat, flight: set<nat>, top: nat, n: nat)
    requires top0 <= top && flight == flight0 + After(top0, top) && MayBegin(flight, top, n)
    ensures MayBegin(flight0, top0, n)
  {
    AfterHas(top0, top);
  }

  lemma FirstOfOutgoing(q: Queues, m: Numbers, packets: Packets, limit: nat, top: nat, queued: nat, flight: set<nat>)
    requires Queued(q, m, packets, limit, top, queued, flight) && q.outgoing != []
    ensures q.outgoing[0].sendAttempts < 1 <==> m.retries == 0
    ensures m.retries == 0 ==> q.outgoing[0].number == Wire(top + 1)
    ensures q.outgoing[0].number < NUMBERS
    ensures |m.outgoing| == |q.outgoing|
  {
    assert Carries(q.outgoing[0], m.outgoing[0], packets, limit);
  }

  lemma WireSlot(n: nat)
    ensures Window(Wire(n)) == Slot(n)
  {
    WireWindow(n);
  }

  lemma FragmentPiece(data: seq<Byte>, limit: nat, k: nat)
    requires 0 < limit < |data| && k < Span(|data|, limit)
    ensures var f := FragmentOf(|data|, limit, k);
      f.number == k && f.offset == Offset(k, limit) && f.offset + f.length <= |data|
      && data[f.offset..f.offset + f.length] == Piece(data, limit, k)
  {
    PieceBounds(|data|, limit, k);
  }

  lemma NothingCounted(counts: seq<nat>)
    requires |counts| == RELIABLE_WINDOWS && forall w :: 0 <= w < |counts| ==> counts[w] == 0
    ensures Counted({}, counts, 0)
  {
    assert Busy(counts) == {};
    assert forall w :: InWindow({}, w) == {};
  }

  lemma QueuedMore(q: Queues, m: Numbers, packets: Packets, more: Packets, limit: nat, top: nat, queued: nat, flight: set<nat>)
    requires Queued(q, m, packets, limit, top, queued, flight) && packets <= more
    ensures Queued(q, m, more, limit, top, queued, flight)
  {
    hide Carries;
    forall j | 0 <= j < |q.sent| ensures Carries(q.sent[j], m.sent[j], more, limit) {
      CarriesMore(q.sent[j], m.sent[j], packets, more, limit);
    }
    forall j | 0 <= j < |q.outgoing| ensures Carries(q.outgoing[j], m.outgoing[j], more, limit) {
      CarriesMore(q.outgoing[j], m.outgoing[j], packets, more, limit);
    }
  }
}
