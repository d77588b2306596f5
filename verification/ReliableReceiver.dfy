/** The receiving side of a channel's reliable commands: peer.c and the handlers of protocol.c. */
module ReliableReceiver {
  import opened Arithmetic
  import opened Bytes
  import opened SequenceNumbers
  import opened Fragmentation
  import opened Numbering

  /** The entry stands for packet i, of which the commands in received have come. */
  ghost predicate EntryOk(e: Incoming, i: nat, packets: Packets, limit: nat, received: set<nat>, delivered: nat) {
    && limit > 0 && delivered <= i < |packets|
    && e.number == Wire(Start(packets, limit, i))
    && Start(packets, limit, i) >= Start(packets, limit, delivered)
    && Window(Start(packets, limit, i)) < Window(Start(packets, limit, delivered) - 1) + FREE_RELIABLE_WINDOWS - 1
    && if |packets[i]| <= limit then
      e == Incoming(e.number, 0, 0, [], packets[i]) && Number(packets, limit, i, 0) in received
    else
      && Assembling(e, packets[i], limit)
      && forall k {:trigger e.fragments[k]} :: 0 <= k < |e.fragments| ==> (e.fragments[k] <==> Number(packets, limit, i, k) in received)
  }

  /** A command of an undelivered packet has that packet's entry. */
  ghost predicate Kept(indices: seq<nat>, packets: Packets, limit: nat, received: set<nat>, delivered: nat, i: nat, k: nat) {
    IsCommand(packets, limit, i, k) && Number(packets, limit, i, k) in received ==> i < delivered || i in indices
  }

  /** incomingReliableCommands holds the packets of indices, in the order they were sent. */
  ghost predicate Holds(incoming: seq<Incoming>, indices: seq<nat>, packets: Packets, limit: nat, received: set<nat>, delivered: nat) {
    && limit > 0 && delivered <= |packets| && |incoming| == |indices|
    && (forall j :: 0 <= j < |indices| ==> delivered <= indices[j] < |packets|)
    && (forall j, k :: 0 <= j < k < |indices| ==> indices[j] < indices[k])
    && (forall j :: 0 <= j < |indices| ==> EntryOk(incoming[j], indices[j], packets, limit, received, delivered))
    && (forall i: nat, k: nat {:trigger Kept(indices, packets, limit, received, delivered, i, k)} ::
         Kept(indices, packets, limit, received, delivered, i, k))
    && (forall i :: 0 <= i < delivered ==> Complete(packets, limit, received, i))
    && (forall n :: n in received ==> 1 <= n < Start(packets, limit, |packets|))
  }

  /** Where the next packet is whole, there is more to dispatch. */
  ghost predicate Settled(packets: Packets, limit: nat, received: set<nat>, delivered: nat) {
    limit > 0 && (delivered < |packets| ==> !Complete(packets, limit, received, delivered))
  }

  /** The last number delivered, were numbers not to wrap. */
  ghost function Current(packets: Packets, limit: nat, delivered: nat): nat
    requires limit > 0 && delivered <= |packets|
  {
    Start(packets, limit, delivered) - 1
  }

  /** A command from within the receiver's windows is taken. */
  ghost predicate Takes(start: nat, current: nat) {
    current < start && Window(start) < Window(current) + FREE_RELIABLE_WINDOWS - 1
  }

  lemma EntryAhead(e: Incoming, i: nat, packets: Packets, limit: nat, received: set<nat>, delivered: nat)
    requires EntryOk(e, i, packets, limit, received, delivered)
    ensures var current := Current(packets, limit, delivered);
      current < Start(packets, limit, i) < current + NUMBERS
  {
  }

  /** Which of the code's comparisons with an entry hold. */
  lemma EntryCompares(e: Incoming, i: nat, packets: Packets, limit: nat, received: set<nat>, delivered: nat, n: nat)
    requires EntryOk(e, i, packets, limit, received, delivered)
    requires var current := Current(packets, limit, delivered); current < n < current + NUMBERS
    ensures var current := Wire(Current(packets, limit, delivered));
      && (Before(e.number, Wire(n), current) <==> Start(packets, limit, i) < n)
      && (e.number == Wire(n) <==> Start(packets, limit, i) == n)
  {
    EntryAhead(e, i, packets, limit, received, delivered);
    BeforeIsTrue(Start(packets, limit, i), n, Current(packets, limit, delivered));
  }

  lemma Ordered(indices: seq<nat>, packets: Packets, limit: nat, at: nat)
    requires limit > 0 && 0 < at <= |indices| && forall j :: 0 <= j < |indices| ==> indices[j] < |packets|
    requires forall j, k :: 0 <= j < k < |indices| ==> indices[j] < indices[k]
    ensures forall j :: 0 <= j < at - 1 ==> Start(packets, limit, indices[j]) < Start(packets, limit, indices[at - 1])
  {
    forall j | 0 <= j < at - 1 ensures Start(packets, limit, indices[j]) < Start(packets, limit, indices[at - 1]) {
      StartsGrow(packets, limit, indices[j], indices[at - 1]);
    }
  }

  lemma HoldsBounds(incoming: seq<Incoming>, indices: seq<nat>, packets: Packets, limit: nat, received: set<nat>, delivered: nat)
    requires Holds(incoming, indices, packets, limit, received, delivered)
    ensures limit > 0 && delivered <= |packets| && |incoming| == |indices|
    ensures forall j :: 0 <= j < |indices| ==> delivered <= indices[j] < |packets|
  {
  }

  // Dispatching.

  /** Entry j is whole, and is the j-th of the next packets. */
  ghost predicate PassedAt(incoming: seq<Incoming>, indices: seq<nat>, packets: Packets, limit: nat, received: set<nat>,
                           delivered: nat, j: nat)
    requires limit > 0 && j < |incoming| == |indices| && delivered + j < |packets|
  {
    && indices[j] == delivered + j && incoming[j].data == packets[delivered + j]
    && Complete(packets, limit, received, delivered + j)
  }

  /** The first c entries are whole, and are the next packets in order. */
  ghost predicate Passing(incoming: seq<Incoming>, indices: seq<nat>, packets: Packets, limit: nat, received: set<nat>,
                          delivered: nat, c: nat)
  {
    && c <= |incoming| == |indices| && delivered + c <= |packets| && limit > 0
    && forall j :: 0 <= j < c ==> PassedAt(incoming, indices, packets, limit, received, delivered, j)
  }

  lemma PassedAll(incoming: seq<Incoming>, indices: seq<nat>, packets: Packets, limit: nat, received: set<nat>,
                  delivered: nat, c: nat)
    requires Passing(incoming, indices, packets, limit, received, delivered, c)
    ensures forall j :: 0 <= j < c ==> indices[j] == delivered + j && incoming[j].data == packets[delivered + j]
    ensures forall i :: delivered <= i < delivered + c ==> Complete(packets, limit, received, i)
  {
    hide Complete;
    forall i | delivered <= i < delivered + c ensures Complete(packets, limit, received, i) {
      assert PassedAt(incoming, indices, packets, limit, received, delivered, i - delivered);
    }
    forall j | 0 <= j < c ensures indices[j] == delivered + j && incoming[j].data == packets[delivered + j] {
      assert PassedAt(incoming, indices, packets, limit, received, delivered, j);
    }
  }

  lemma EntryIsComplete(e: Incoming, i: nat, packets: Packets, limit: nat, received: set<nat>, delivered: nat)
    requires EntryOk(e, i, packets, limit, received, delivered)
    ensures e.fragmentsRemaining == 0 <==> Complete(packets, limit, received, i)
    ensures e.fragmentsRemaining == 0 ==> e.data == packets[i]
    ensures e.fragmentCount == if |packets[i]| <= limit then 0 else Span(|packets[i]|, limit)
  {
    hide Number, Start;
    if |packets[i]| > limit {
      AssembledIsThePacket(e, packets[i], limit);
      forall k | e.fragmentsRemaining == 0 && 0 <= k < |e.fragments| ensures Number(packets, limit, i, k) in received {
        assert e.fragments[k];
      }
      if Complete(packets, limit, received, i) {
        forall k | 0 <= k < |e.fragments| ensures e.fragments[k] { assert Number(packets, limit, i, k) in received; }
      }
    } else {
      assert Number(packets, limit, i, 0) in received;
    }
  }

  /** The entry at c is the packet after those passed, or a later one. */
  lemma NextEntry(incoming: seq<Incoming>, indices: seq<nat>, packets: Packets, limit: nat, received: set<nat>,
                  delivered: nat, c: nat)
    requires Holds(incoming, indices, packets, limit, received, delivered) && c < |incoming|
    requires Passing(incoming, indices, packets, limit, received, delivered, c)
    ensures indices[c] >= delivered + c && delivered + c < |packets|
    ensures incoming[c].number == (Wire(Current(packets, limit, delivered + c)) + 1) % NUMBERS <==> indices[c] == delivered + c
  {
    hide EntryOk;
    PassedAll(incoming, indices, packets, limit, received, delivered, c);
    var i, d := indices[c], delivered + c;
    assert c > 0 ==> indices[c - 1] < i;
    EntryAhead(incoming[c], i, packets, limit, received, delivered);
    EntryNumber(incoming[c], i, packets, limit, received, delivered);
    if delivered < d { StartsGrow(packets, limit, delivered, d); }
    if d < i { StartsGrow(packets, limit, d, i); }
    var current := Current(packets, limit, d);
    NextWire(current, Start(packets, limit, i));
  }

  lemma EntryNumber(e: Incoming, i: nat, packets: Packets, limit: nat, received: set<nat>, delivered: nat)
    requires EntryOk(e, i, packets, limit, received, delivered)
    ensures e.number == Wire(Start(packets, limit, i))
  {
  }

  lemma NextWire(current: nat, n: nat)
    requires current < n < current + NUMBERS
    ensures Wire(n) == (Wire(current) + 1) % NUMBERS <==> n == current + 1
  {
    WireNext(current);
    if Wire(n) == Wire(current + 1) { SameWire(n, current + 1); }
  }

  lemma PassOne(incoming: seq<Incoming>, indices: seq<nat>, packets: Packets, limit: nat, received: set<nat>,
                delivered: nat, c: nat)
    requires Holds(incoming, indices, packets, limit, received, delivered) && c < |incoming|
    requires Passing(incoming, indices, packets, limit, received, delivered, c)
    requires indices[c] == delivered + c && incoming[c].fragmentsRemaining == 0
    ensures Passing(incoming, indices, packets, limit, received, delivered, c + 1)
  {
    hide EntryOk, Complete;
    EntryIsComplete(incoming[c], delivered + c, packets, limit, received, delivered);
    assert indices[c] < |packets| && |incoming| == |indices|;
    hide Holds;
    assert PassedAt(incoming, indices, packets, limit, received, delivered, c);
    hide PassedAt;
    forall j | 0 <= j < c + 1 ensures PassedAt(incoming, indices, packets, limit, received, delivered, j) {
    }
  }

  /** incomingReliableSequenceNumber after entry c. */
  lemma PassedNumber(incoming: seq<Incoming>, indices: seq<nat>, packets: Packets, limit: nat, received: set<nat>,
                     delivered: nat, c: nat)
    requires Holds(incoming, indices, packets, limit, received, delivered) && c < |incoming|
    requires indices[c] == delivered + c
    ensures var e := incoming[c];
      Wire(Current(packets, limit, delivered + c + 1)) ==
        if e.fragmentCount > 0 then (e.number + e.fragmentCount - 1) % NUMBERS else e.number
  {
    hide EntryOk, Complete, Span;
    var e, d := incoming[c], delivered + c;
    EntryIsComplete(e, d, packets, limit, received, delivered);
    EntryNumber(e, d, packets, limit, received, delivered);
    StartNext(packets, limit, d);
    if |packets[d]| > limit { WireAdds(Start(packets, limit, d), Span(|packets[d]|, limit) - 1); } else { OneSpan(|packets[d]|, limit); }
  }

  function Data(entries: seq<Incoming>): Packets {
    seq(|entries|, j requires 0 <= j < |entries| => entries[j].data)
  }

  lemma PassedData(incoming: seq<Incoming>, indices: seq<nat>, packets: Packets, limit: nat, received: set<nat>,
                   delivered: nat, c: nat)
    requires Passing(incoming, indices, packets, limit, received, delivered, c)
    ensures packets[..delivered] + Data(incoming[..c]) == packets[..delivered + c]
    ensures c > 0 ==> !Settled(packets, limit, received, delivered)
    ensures incoming[0..] == incoming && indices[0..] == indices
  {
    hide Complete;
    PassedAll(incoming, indices, packets, limit, received, delivered, c);
    if c > 0 { assert indices[0] == delivered + 0; }
  }

  /** Where the loop stops, the next packet is not whole. */
  lemma StoppedIsSettled(incoming: seq<Incoming>, indices: seq<nat>, packets: Packets, limit: nat, received: set<nat>,
                         delivered: nat, c: nat)
    requires Holds(incoming, indices, packets, limit, received, delivered)
    requires Passing(incoming, indices, packets, limit, received, delivered, c)
    requires c < |incoming| ==> incoming[c].fragmentsRemaining > 0 || indices[c] != delivered + c
    ensures Settled(packets, limit, received, delivered + c)
  {
    hide EntryOk;
    PassedAll(incoming, indices, packets, limit, received, delivered, c);
    var d := delivered + c;
    if d < |packets| && Complete(packets, limit, received, d) {
      assert Number(packets, limit, d, 0) in received;
      assert Kept(indices, packets, limit, received, delivered, d, 0);
      var j :| 0 <= j < |indices| && indices[j] == d;
      assert j >= c;
      NextEntry(incoming, indices, packets, limit, received, delivered, c);
      assert j == c;
      EntryIsComplete(incoming[c], d, packets, limit, received, delivered);
    }
  }

  lemma EntryLater(e: Incoming, i: nat, packets: Packets, limit: nat, received: set<nat>, delivered: nat, d: nat)
    requires EntryOk(e, i, packets, limit, received, delivered) && delivered <= d <= i
    ensures EntryOk(e, i, packets, limit, received, d)
  {
    hide Assembling;
    if delivered < d { StartsGrow(packets, limit, delivered, d); }
    if d < i { StartsGrow(packets, limit, d, i); }
  }

  /** What is left after the packets passed have been moved to dispatchedCommands. */
  lemma RestHolds(incoming: seq<Incoming>, indices: seq<nat>, packets: Packets, limit: nat, received: set<nat>,
                  delivered: nat, c: nat)
    requires Holds(incoming, indices, packets, limit, received, delivered)
    requires Passing(incoming, indices, packets, limit, received, delivered, c)
    ensures Holds(incoming[c..], indices[c..], packets, limit, received, delivered + c)
  {
    hide EntryOk, Complete;
    PassedAll(incoming, indices, packets, limit, received, delivered, c);
    var d := delivered + c;
    forall j | c <= j < |indices| ensures d <= indices[j] && EntryOk(incoming[j], indices[j], packets, limit, received, d) {
      NextEntry(incoming, indices, packets, limit, received, delivered, c);
      EntryLater(incoming[j], indices[j], packets, limit, received, delivered, d);
    }
    forall i: nat, k: nat ensures Kept(indices[c..], packets, limit, received, d, i, k) {
      assert Kept(indices, packets, limit, received, delivered, i, k);
      if i in indices && i >= d {
        var j :| 0 <= j < |indices| && indices[j] == i;
        assert indices[c..][j - c] == i;
      }
    }
  }

  // Storing.

  function Inserted<T>(q: seq<T>, at: nat, x: T): seq<T>
    requires at <= |q|
  {
    q[..at] + [x] + q[at..]
  }

  /** An entry does not notice another packet's command. */
  lemma EntryKeeps(e: Incoming, j: nat, packets: Packets, limit: nat, received: set<nat>, delivered: nat, i: nat, k: nat)
    requires EntryOk(e, j, packets, limit, received, delivered) && j != i && IsCommand(packets, limit, i, k)
    ensures EntryOk(e, j, packets, limit, received + {Number(packets, limit, i, k)}, delivered)
  {
    hide Assembling, Number, Start;
    if |packets[j]| > limit {
      forall l | 0 <= l < |e.fragments|
        ensures e.fragments[l] <==> Number(packets, limit, j, l) in received + {Number(packets, limit, i, k)}
      {
        AssemblingSpan(e, packets[j], limit);
        NumberTells(packets, limit, i, k, j, l);
      }
    }
  }

  lemma AssemblingSpan(e: Incoming, data: seq<Byte>, limit: nat)
    requires Assembling(e, data, limit)
    ensures |e.fragments| == Span(|data|, limit) == e.fragmentCount && |e.data| == |data|
  {
  }

  /** Where the search puts packet i among the others. */
  ghost predicate Fits(indices: seq<nat>, at: nat, i: nat) {
    at <= |indices| && (forall j :: 0 <= j < at ==> indices[j] < i) && (forall j :: at <= j < |indices| ==> indices[j] > i)
  }

  lemma FoundFits(indices: seq<nat>, packets: Packets, limit: nat, at: nat, i: nat)
    requires limit > 0 && i < |packets| && at <= |indices| && forall j :: 0 <= j < |indices| ==> indices[j] < |packets|
    requires forall j :: at <= j < |indices| ==> Start(packets, limit, indices[j]) > Start(packets, limit, i)
    requires forall j :: 0 <= j < at ==> Start(packets, limit, indices[j]) < Start(packets, limit, i)
    ensures Fits(indices, at, i) && i !in indices
  {
    forall j | 0 <= j < |indices| ensures if j < at then indices[j] < i else indices[j] > i {
      if indices[j] < i { StartsGrow(packets, limit, indices[j], i); }
      if i < indices[j] { StartsGrow(packets, limit, i, indices[j]); }
    }
  }

  lemma CompleteStays(packets: Packets, limit: nat, received: set<nat>, more: set<nat>, d: nat)
    requires limit > 0 && d <= |packets| && forall i :: 0 <= i < d ==> Complete(packets, limit, received, i)
    ensures forall i :: 0 <= i < d ==> Complete(packets, limit, received + more, i)
  {
    forall i, k | 0 <= i < d && 0 <= k < Span(|packets[i]|, limit) ensures Number(packets, limit, i, k) in received + more {
      assert Complete(packets, limit, received, i);
    }
  }

  lemma InsertHolds(incoming: seq<Incoming>, indices: seq<nat>, packets: Packets, limit: nat, received: set<nat>,
                    delivered: nat, at: nat, e: Incoming, i: nat, more: set<nat>)
    requires Holds(incoming, indices, packets, limit, received, delivered) && Fits(indices, at, i)
    requires delivered <= i < |packets| && EntryOk(e, i, packets, limit, received + more, delivered)
    requires more == {} || more == {Number(packets, limit, i, 0)}
    ensures Holds(Inserted(incoming, at, e), Inserted(indices, at, i), packets, limit, received + more, delivered)
  {
    hide EntryOk, Number;
    CompleteStays(packets, limit, received, more, delivered);
    NumberBounds(packets, limit, i, 0);
    var q, ix := Inserted(incoming, at, e), Inserted(indices, at, i);
    forall j | 0 <= j < |ix| ensures delivered <= ix[j] < |packets| && EntryOk(q[j], ix[j], packets, limit, received + more, delivered) {
      if j != at {
        var l := if j < at then j else j - 1;
        assert q[j] == incoming[l] && ix[j] == indices[l];
        if more == {} { assert received + more == received; } else { EntryKeeps(q[j], ix[j], packets, limit, received, delivered, i, 0); }
      }
    }
    forall j: nat, k: nat ensures Kept(ix, packets, limit, received + more, delivered, j, k) {
      assert Kept(indices, packets, limit, received, delivered, j, k);
      assert ix[at] == i && forall x :: x in indices ==> x in ix;
      if IsCommand(packets, limit, j, k) && Number(packets, limit, j, k) in more { NumberTells(packets, limit, i, 0, j, k); }
    }
  }

  lemma FillHolds(incoming: seq<Incoming>, indices: seq<nat>, packets: Packets, limit: nat, received: set<nat>,
                  delivered: nat, at: nat, k: nat, e: Incoming)
    requires Holds(incoming, indices, packets, limit, received, delivered) && at < |incoming|
    requires IsCommand(packets, limit, indices[at], k)
    requires EntryOk(e, indices[at], packets, limit, received + {Number(packets, limit, indices[at], k)}, delivered)
    ensures Holds(incoming[at := e], indices, packets, limit, received + {Number(packets, limit, indices[at], k)}, delivered)
  {
    hide EntryOk, Number;
    var i := indices[at];
    CompleteStays(packets, limit, received, {Number(packets, limit, i, k)}, delivered);
    NumberBounds(packets, limit, i, k);
    var more := received + {Number(packets, limit, i, k)};
    forall j | 0 <= j < |indices| ensures EntryOk(incoming[at := e][j], indices[j], packets, limit, more, delivered) {
      if j != at {
        assert indices[j] != i;
        EntryKeeps(incoming[j], indices[j], packets, limit, received, delivered, i, k);
      }
    }
    forall j: nat, l: nat ensures Kept(indices, packets, limit, more, delivered, j, l) {
      assert Kept(indices, packets, limit, received, delivered, j, l);
      if IsCommand(packets, limit, j, l) && Number(packets, limit, j, l) !in received { NumberTells(packets, limit, i, k, j, l); }
    }
  }

  /** A fragment that has not come yet completes the entry by one piece; one that has changes nothing. */
  lemma EntryFills(e: Incoming, i: nat, packets: Packets, limit: nat, received: set<nat>, delivered: nat, k: nat)
    requires EntryOk(e, i, packets, limit, received, delivered) && IsCommand(packets, limit, i, k) && |packets[i]| > limit
    ensures k < |e.fragments| == e.fragmentCount == Span(|packets[i]|, limit) && |e.data| == |packets[i]|
    ensures var offset, piece, n := Offset(k, limit), Piece(packets[i], limit, k), Number(packets, limit, i, k);
      && offset + |piece| <= |e.data|
      && (e.fragments[k] <==> n in received)
      && (!e.fragments[k] ==> e.fragmentsRemaining > 0 && EntryOk(Filled(e, k, offset, piece), i, packets, limit, received + {n}, delivered))
  {
    AssemblingSpan(e, packets[i], limit);
    PieceBounds(|packets[i]|, limit, k);
    if !e.fragments[k] {
      FilledKeeps(e, packets[i], limit, k);
      hide Assembling, Span, Offset, Piece;
      var f := Filled(e, k, Offset(k, limit), Piece(packets[i], limit, k));
      forall l | 0 <= l < |f.fragments|
        ensures f.fragments[l] <==> Number(packets, limit, i, l) in received + {Number(packets, limit, i, k)}
      {
        assert e.fragments[l] <==> Number(packets, limit, i, l) in received;
      }
    }
  }

  /** A new entry, before any fragment has been written to it. */
  lemma EmptyEntry(data: seq<Byte>, i: nat, packets: Packets, limit: nat, received: set<nat>, delivered: nat)
    requires limit > 0 && delivered <= i < |packets| && |data| == |packets[i]| > limit
    requires Takes(Start(packets, limit, i), Current(packets, limit, delivered))
    requires forall k :: 0 <= k < Span(|packets[i]|, limit) ==> Number(packets, limit, i, k) !in received
    ensures var n := Span(|packets[i]|, limit);
      EntryOk(Incoming(Wire(Start(packets, limit, i)), n, n, seq(n, _ => false), data), i, packets, limit, received, delivered)
  {
    ClearAll(Span(|packets[i]|, limit));
  }

  /** Every number up to the last delivered has been received, and belongs to a delivered packet. */
  lemma TakenIsNew(incoming: seq<Incoming>, indices: seq<nat>, packets: Packets, limit: nat, received: set<nat>,
                   delivered: nat, i: nat, k: nat)
    requires Holds(incoming, indices, packets, limit, received, delivered) && IsCommand(packets, limit, i, k)
    ensures Current(packets, limit, delivered) < Start(packets, limit, i) <==> i >= delivered
    ensures i < delivered ==> Number(packets, limit, i, k) in received
    ensures i >= delivered && i !in indices ==> Number(packets, limit, i, k) !in received
  {
    hide EntryOk, Number;
    if i < delivered { StartsGrow(packets, limit, i, delivered); assert Complete(packets, limit, received, i); }
    if delivered < i { StartsGrow(packets, limit, delivered, i); }
    assert Kept(indices, packets, limit, received, delivered, i, k);
  }

  /** What enet_peer_queue_incoming_command returns: the static dummy, NULL, or the entry it has stored. */
  datatype Admission = Discarded | Refused | Stored(at: nat)

  class Receiver {
    var incomingReliableSequenceNumber: nat
    var incoming: seq<Incoming>
    var dispatched: Packets
    var acknowledgements: seq<nat>
    const limit: nat
    const maximumPacketSize: nat
    ghost var packets: Packets
    ghost var indices: seq<nat>
    ghost var received: set<nat>
    ghost var delivered: nat

    ghost predicate Consistent()
      reads this
    {
      && Holds(incoming, indices, packets, limit, received, delivered) == true
      && incomingReliableSequenceNumber == Wire(Current(packets, limit, delivered))
      && dispatched == packets[..delivered]
    }

    ghost predicate Valid()
      reads this
    {
      Consistent() && Settled(packets, limit, received, delivered)
    }

    constructor (fragmentLength: nat, maximum: nat)
      requires fragmentLength > 0
      ensures Valid() && limit == fragmentLength && maximumPacketSize == maximum
      ensures packets == [] && received == {} && acknowledgements == []
    {
      incomingReliableSequenceNumber, incoming, dispatched, acknowledgements := 0, [], [], [];
      limit, maximumPacketSize := fragmentLength, maximum;
      packets, indices, received, delivered := [], [], {}, 0;
    }

    /** The sender has queued more packets. */
    ghost method Extend(more: Packets)
      requires Valid() && packets <= more
      modifies `packets
      ensures Valid() && packets == more
    {
      PrefixHolds(incoming, indices, packets, more, limit, received, delivered);
      packets := more;
    }

    /** The search loops of enet_peer_queue_incoming_command and enet_protocol_handle_send_fragment. */
    method Find(number: nat, ghost n: nat) returns (at: nat, found: bool)
      requires Consistent() && number == Wire(n)
      requires var current := Current(packets, limit, delivered); current < n < current + NUMBERS
      ensures at <= |incoming|
      ensures forall j :: at <= j < |incoming| ==> Start(packets, limit, indices[j]) > n
      ensures forall j :: 0 <= j < at ==> Start(packets, limit, indices[j]) < n || (found && j == at - 1)
      ensures found ==> at > 0 && Start(packets, limit, indices[at - 1]) == n
    {
      hide Start, EntryOk, Wire;
      at, found := |incoming|, false;
      while at > 0
        invariant at <= |incoming| && !found
        invariant forall j :: at <= j < |incoming| ==> Start(packets, limit, indices[j]) > n
        decreases at
      {
        var entry := incoming[at - 1];
        EntryCompares(entry, indices[at - 1], packets, limit, received, delivered, n);
        Ordered(indices, packets, limit, at);
        if number >= incomingReliableSequenceNumber {
          if entry.number < incomingReliableSequenceNumber {
            at := at - 1;
            continue;
          }
        } else if entry.number >= incomingReliableSequenceNumber {
          break;
        }
        if entry.number <= number {
          if entry.number < number { break; }
          found := true;
          return;
        }
        at := at - 1;
      }
    }

    /** enet_peer_dispatch_incoming_reliable_commands */
    method Dispatch()
      requires Consistent()
      modifies this
      ensures Valid() && acknowledgements == old(acknowledgements)
      ensures packets == old(packets) && received == old(received) && delivered >= old(delivered)
      ensures Settled(old(packets), limit, old(received), old(delivered)) ==>
        incoming == old(incoming) && indices == old(indices) && delivered == old(delivered)
    {
      hide Holds, Start, Settled;
      HoldsBounds(incoming, indices, packets, limit, received, delivered);
      var c := 0;
      while c < |incoming|
        invariant Holds(incoming, indices, packets, limit, received, delivered)
        invariant Passing(incoming, indices, packets, limit, received, delivered, c)
        invariant incomingReliableSequenceNumber == Wire(Current(packets, limit, delivered + c))
        invariant unchanged(`incoming, `indices, `packets, `received, `delivered, `dispatched, `acknowledgements)
      {
        var entry := incoming[c];
        NextEntry(incoming, indices, packets, limit, received, delivered, c);
        if entry.fragmentsRemaining > 0 || entry.number != (incomingReliableSequenceNumber + 1) % NUMBERS { break; }
        PassOne(incoming, indices, packets, limit, received, delivered, c);
        PassedNumber(incoming, indices, packets, limit, received, delivered, c);
        incomingReliableSequenceNumber := entry.number;
        if entry.fragmentCount > 0 {
          incomingReliableSequenceNumber := (incomingReliableSequenceNumber + entry.fragmentCount - 1) % NUMBERS;
        }
        c := c + 1;
      }
      PassedData(incoming, indices, packets, limit, received, delivered, c);
      StoppedIsSettled(incoming, indices, packets, limit, received, delivered, c);
      RestHolds(incoming, indices, packets, limit, received, delivered, c);
      dispatched := dispatched + Data(incoming[..c]);
      incoming := incoming[c..];
      indices, delivered := indices[c..], delivered + c;
    }

    /** The sender has packet i queued, and the network delivers a copy of one of its commands recently enough. */
    ghost predicate Arrives(i: nat)
      reads this
      requires Consistent()
    {
      && i < |packets|
      && Recent(Start(packets, limit, i), Current(packets, limit, delivered))
      && Start(packets, limit, i) < Current(packets, limit, delivered) + NUMBERS
    }

    ghost predicate TakesPacket(i: nat)
      reads this
      requires Consistent() && i < |packets|
    {
      Takes(Start(packets, limit, i), Current(packets, limit, delivered))
    }

    /** A packet within the receiver's windows of which nothing has come yet. */
    ghost predicate IsNew(i: nat)
      reads this
      requires Consistent() && i < |packets|
    {
      TakesPacket(i) && i !in indices
    }

    /** enet_peer_queue_incoming_command for reliable commands; full: totalWaitingData has reached its maximum. */
    method QueueIncoming(number: nat, data: seq<Byte>, fragmentCount: nat, full: bool, ghost i: nat) returns (queued: Admission)
      requires Valid() && Arrives(i)
      requires number == Wire(Start(packets, limit, i)) && |data| == |packets[i]|
      requires if |packets[i]| <= limit then fragmentCount == 0 && data == packets[i] else fragmentCount == Span(|packets[i]|, limit)
      modifies this
      ensures Valid() && packets == old(packets) && acknowledgements == old(acknowledgements) && delivered >= old(delivered)
      ensures !queued.Stored? ==> unchanged(this)
      ensures queued.Stored? <==> old(IsNew(i)) && !full
      ensures queued.Refused? <==> if old(IsNew(i)) then full else fragmentCount > 0
      ensures queued.Discarded? && old(TakesPacket(i)) ==> Number(packets, limit, i, 0) in received
      ensures queued.Stored? && fragmentCount == 0 ==> received == old(received) + {Number(packets, limit, i, 0)}
      ensures queued.Stored? && fragmentCount > 0 ==>
        received == old(received) && delivered == old(delivered) && queued.at < |indices| && indices[queued.at] == i
    {
      hide Holds, Start, EntryOk, Settled, Complete, Number, Wire;
      HoldsBounds(incoming, indices, packets, limit, received, delivered);
      ghost var n, current := Start(packets, limit, i), Current(packets, limit, delivered);
      AcceptsIsTrue(n, current);
      if !Accepts(number, incomingReliableSequenceNumber) {
        return if fragmentCount > 0 then Refused else Discarded;
      }
      TakenIsNew(incoming, indices, packets, limit, received, delivered, i, 0);
      var at, found := Find(number, n);
      if found {
        SamePacket(incoming, indices, packets, limit, received, delivered, at - 1, i);
        return if fragmentCount > 0 then Refused else Discarded;
      }
      NotFound(incoming, indices, packets, limit, i);
      if full { return Refused; }
      EntryIsNew(incoming, indices, packets, limit, received, delivered, at, i, data);
      var entry := Incoming(number, fragmentCount, fragmentCount, seq(fragmentCount, _ => false), data);
      ghost var more := if fragmentCount == 0 then {Number(packets, limit, i, 0)} else {};
      InsertHolds(incoming, indices, packets, limit, received, delivered, at, entry, i, more);
      incoming := Inserted(incoming, at, entry);
      indices, received := Inserted(indices, at, i), received + more;
      assert more == {} ==> received == old(received);
      Dispatch();
      return Stored(at);
    }

    /** Packet i's k-th command, k being a whole packet's 0, could have been sent with this host's limits. */
    ghost predicate Honest(i: nat, k: nat)
      reads this
    {
      IsCommand(packets, limit, i, k) && |packets[i]| <= maximumPacketSize && Span(|packets[i]|, limit) <= MAXIMUM_FRAGMENT_COUNT
    }

    /** enet_protocol_handle_send_reliable */
    method HandleReliable(command: Command, full: bool, ghost i: nat) returns (ok: bool)
      requires Valid() && Arrives(i) && Honest(i, 0) && |packets[i]| <= limit
      requires command == CommandOf(packets[i], limit, Start(packets, limit, i), 0)
      modifies this
      ensures Valid() && packets == old(packets) && delivered >= old(delivered)
      ensures ok <==> !(full && old(IsNew(i)))
      ensures received == if ok && old(TakesPacket(i)) then old(received) + {Number(packets, limit, i, 0)} else old(received)
      ensures !ok || !old(TakesPacket(i)) ==> unchanged(this)
      ensures acknowledgements == old(acknowledgements)
    {
      if |command.data| > maximumPacketSize { return false; }
      var queued := QueueIncoming(command.number, command.data, 0, full, i);
      ok := !queued.Refused?;
      if queued.Discarded? && old(TakesPacket(i)) { assert received == old(received) + {Number(packets, limit, i, 0)}; }
    }

    /** enet_protocol_handle_send_fragment */
    method HandleFragment(command: Command, full: bool, ghost i: nat, ghost k: nat) returns (ok: bool)
      requires Valid() && Arrives(i) && Honest(i, k) && |packets[i]| > limit
      requires command == CommandOf(packets[i], limit, Start(packets, limit, i), k)
      modifies this
      ensures Valid() && packets == old(packets) && delivered >= old(delivered)
      ensures ok <==> !(full && old(IsNew(i)))
      ensures received == if ok && old(TakesPacket(i)) then old(received) + {Number(packets, limit, i, k)} else old(received)
      ensures !ok || !old(TakesPacket(i)) ==> unchanged(this)
      ensures acknowledgements == old(acknowledgements)
    {
      hide Holds, Start, EntryOk, Settled, Complete, Number, Wire, Span, Offset, Piece;
      HoldsBounds(incoming, indices, packets, limit, received, delivered);
      SpanBounds(|packets[i]|, limit);
      PieceBounds(|packets[i]|, limit, k);
      PieceSize(packets[i], limit, k);
      ghost var n, current := Start(packets, limit, i), Current(packets, limit, delivered);
      AcceptsIsTrue(n, current);
      if |command.data| <= 0 || |command.data| > maximumPacketSize { return false; }
      var start := command.startNumber;
      var ahead := WindowsAhead(start, incomingReliableSequenceNumber);
      NotLastNumber(packets, limit, delivered, i);
      if ahead < 0 || ahead >= FREE_RELIABLE_WINDOWS - 1 { return true; }
      if command.fragmentCount > MAXIMUM_FRAGMENT_COUNT || command.fragmentNumber >= command.fragmentCount ||
         command.totalLength > maximumPacketSize || command.totalLength < command.fragmentCount ||
         command.fragmentOffset >= command.totalLength || |command.data| > command.totalLength - command.fragmentOffset
      {
        return false;
      }
      TakenIsNew(incoming, indices, packets, limit, received, delivered, i, k);
      var at, found := Find(start, n);
      if found {
        at := at - 1;
        SamePacket(incoming, indices, packets, limit, received, delivered, at, i);
        EntryOfFragments(incoming, indices, packets, limit, received, delivered, at);
        if incoming[at].fragmentCount == 0 || command.totalLength != |incoming[at].data| ||
           command.fragmentCount != incoming[at].fragmentCount
        {
          return false;
        }
      } else {
        NotFound(incoming, indices, packets, limit, i);
        var memory := new Byte[command.totalLength];
        var queued := QueueIncoming(start, memory[..], command.fragmentCount, full, i);
        if queued.Refused? { return false; }
        at := queued.at;
      }
      Fill(at, command.fragmentNumber, command.fragmentOffset, command.data, i);
      ok := true;
    }

    /** enet_peer_queue_acknowledgement */
    method QueueAcknowledgement(number: nat) returns (queued: bool)
      modifies `acknowledgements
      ensures queued == Acknowledges(number, incomingReliableSequenceNumber)
      ensures acknowledgements == if queued then old(acknowledgements) + [number] else old(acknowledgements)
    {
      var reliableWindow, currentWindow := Window(number), Window(incomingReliableSequenceNumber);
      if number < incomingReliableSequenceNumber { reliableWindow := reliableWindow + RELIABLE_WINDOWS; }
      if reliableWindow >= currentWindow + FREE_RELIABLE_WINDOWS - 1 && reliableWindow <= currentWindow + FREE_RELIABLE_WINDOWS {
        return false;
      }
      acknowledgements := acknowledgements + [number];
      return true;
    }

    /** A reliable command: stored or refused, and then acknowledged unless its handler has failed. A command inside the windows
        is received, unless memory is used up by its packet; the acknowledgement looks at the windows after that. */
    method HandleCommand(command: Command, full: bool, ghost i: nat, ghost k: nat) returns (acknowledged: bool)
      requires Valid() && Arrives(i) && Honest(i, k)
      requires Number(packets, limit, i, k) < Current(packets, limit, delivered) + NUMBERS
      requires command == CommandOf(packets[i], limit, Start(packets, limit, i), k)
      modifies this
      ensures Valid() && packets == old(packets) && delivered >= old(delivered)
      ensures var n, fails := Number(packets, limit, i, k), full && old(IsNew(i));
        && received == (if old(TakesPacket(i)) && !fails then old(received) + {n} else old(received))
        && (acknowledged <==> !fails && AckReaches(n, Current(packets, limit, delivered)))
        && (acknowledged && n !in received ==> Window(n) > old(Window(Current(packets, limit, delivered))) + FREE_RELIABLE_WINDOWS)
      ensures acknowledgements == if acknowledged then old(acknowledgements) + [command.number] else old(acknowledgements)
    {
      hide Holds, Start, EntryOk, Settled, Complete, Number, Wire, Span, Offset, Piece, AckReaches;
      var ok;
      HoldsBounds(incoming, indices, packets, limit, received, delivered);
      Wholes(packets, limit, i, k);
      if !TakesPacket(i) { AcknowledgesAhead(packets, limit, delivered, i, k); }
      TakenIsNew(incoming, indices, packets, limit, received, delivered, i, k);
      if command.SendReliable? {
        ok := HandleReliable(command, full, i);
      } else {
        ok := HandleFragment(command, full, i, k);
      }
      acknowledged := false;
      HoldsBounds(incoming, indices, packets, limit, received, delivered);
      AckTest(Number(packets, limit, i, k), Current(packets, limit, delivered));
      if ok { acknowledged := QueueAcknowledgement(command.number); }
    }

    /** The fragment's bit and its bytes, and the dispatch of what has become complete. */
    method Fill(at: nat, k: nat, offset: nat, data: seq<Byte>, ghost i: nat)
      requires Valid() && at < |indices| && indices[at] == i && Honest(i, k) && |packets[i]| > limit
      requires offset == Offset(k, limit) && data == Piece(packets[i], limit, k)
      modifies this
      ensures Valid() && packets == old(packets) && acknowledgements == old(acknowledgements) && delivered >= old(delivered)
      ensures received == old(received) + {Number(packets, limit, i, k)}
    {
      hide Start, EntryOk, Settled, Complete, Number, Wire, Span, Offset, Piece;
      var entry := incoming[at];
      EntryFills(entry, i, packets, limit, received, delivered, k);
      if !entry.fragments[k] {
        var length := if offset + |data| > |entry.data| then |entry.data| - offset else |data|;
        assert data[..length] == data;
        FillHolds(incoming, indices, packets, limit, received, delivered, at, k, Filled(entry, k, offset, data));
        incoming := incoming[at := Filled(entry, k, offset, data[..length])];
        received := received + {Number(packets, limit, i, k)};
        if incoming[at].fragmentsRemaining <= 0 {
          Dispatch();
        } else {
          StillSettled(incoming, indices, packets, limit, old(received), received, delivered, at, k);
        }
      } else {
        assert received == received + {Number(packets, limit, i, k)};
      }
    }
  }

  /** Packets queued later do not concern the receiver. */
  lemma PrefixHolds(incoming: seq<Incoming>, indices: seq<nat>, packets: Packets, more: Packets, limit: nat,
                    received: set<nat>, delivered: nat)
    requires Holds(incoming, indices, packets, limit, received, delivered) && packets <= more
    requires Settled(packets, limit, received, delivered)
    ensures Holds(incoming, indices, more, limit, received, delivered) && Settled(more, limit, received, delivered)
    ensures Current(more, limit, delivered) == Current(packets, limit, delivered)
  {
    hide EntryOk, Start;
    SamePrefix(packets, more, limit, delivered);
    SamePrefix(packets, more, limit, |packets|);
    if |packets| < |more| { StartsGrow(more, limit, |packets|, |more|); }
    forall j | 0 <= j < |indices| ensures EntryOk(incoming[j], indices[j], more, limit, received, delivered) {
      EntryPrefix(incoming[j], indices[j], packets, more, limit, received, delivered);
    }
    forall i: nat, k: nat ensures Kept(indices, more, limit, received, delivered, i, k) {
      assert Kept(indices, packets, limit, received, delivered, i, k);
      if i < |packets| { SamePrefix(packets, more, limit, i); }
      else if IsCommand(more, limit, i, k) && i > |packets| { StartsGrow(more, limit, |packets|, i); }
    }
    forall i | 0 <= i < |packets| ensures Complete(more, limit, received, i) == Complete(packets, limit, received, i) {
      SameComplete(packets, more, limit, received, i);
    }
    if delivered == |packets| < |more| { assert Number(more, limit, delivered, 0) !in received; }
  }

  lemma SameComplete(packets: Packets, more: Packets, limit: nat, received: set<nat>, i: nat)
    requires limit > 0 && packets <= more && i < |packets|
    ensures Complete(more, limit, received, i) == Complete(packets, limit, received, i)
  {
    hide Start;
    SamePrefix(packets, more, limit, i);
    assert forall k :: Number(more, limit, i, k) == Number(packets, limit, i, k);
  }

  lemma EntryPrefix(e: Incoming, i: nat, packets: Packets, more: Packets, limit: nat, received: set<nat>, delivered: nat)
    requires EntryOk(e, i, packets, limit, received, delivered) && packets <= more && delivered <= |packets|
    ensures EntryOk(e, i, more, limit, received, delivered)
  {
    hide Start, Assembling;
    SamePrefix(packets, more, limit, i);
    SamePrefix(packets, more, limit, delivered);
  }

  lemma PieceSize(data: seq<Byte>, limit: nat, k: nat)
    requires 0 < limit < |data| && k < Span(|data|, limit)
    ensures 0 < |Piece(data, limit, k)| == End(k, limit, |data|) - Offset(k, limit)
  {
    PieceBounds(|data|, limit, k);
  }

  /** The last number delivered is never the first one of a fragmented packet. */
  lemma NotLastNumber(packets: Packets, limit: nat, delivered: nat, i: nat)
    requires limit > 0 && i < |packets| && delivered <= |packets| && |packets[i]| > limit
    requires Start(packets, limit, i) < Current(packets, limit, delivered) + NUMBERS
    requires Recent(Start(packets, limit, i), Current(packets, limit, delivered))
    ensures Wire(Start(packets, limit, i)) != Wire(Current(packets, limit, delivered))
  {
    var n, current := Start(packets, limit, i), Current(packets, limit, delivered);
    SpanBounds(|packets[i]|, limit);
    if i < delivered { StartsGrow(packets, limit, i, delivered); }
    if delivered < i { StartsGrow(packets, limit, delivered, i); }
    assert n != current;
    if Wire(n) == Wire(current) { RecentWire(n, current); }
  }

  lemma RecentWire(n: nat, current: nat)
    requires Recent(n, current) && n < current + NUMBERS && Wire(n) == Wire(current)
    ensures n == current
  {
    SameWire(n, current);
  }

  lemma EntryOfFragments(incoming: seq<Incoming>, indices: seq<nat>, packets: Packets, limit: nat, received: set<nat>,
                         delivered: nat, at: nat)
    requires Holds(incoming, indices, packets, limit, received, delivered) && at < |indices| && |packets[indices[at]]| > limit
    ensures var e, data := incoming[at], packets[indices[at]];
      |e.data| == |data| && e.fragmentCount == Span(|data|, limit) > 0
  {
    assert EntryOk(incoming[at], indices[at], packets, limit, received, delivered);
    AssemblingSpan(incoming[at], packets[indices[at]], limit);
  }

  lemma NotFound(incoming: seq<Incoming>, indices: seq<nat>, packets: Packets, limit: nat, i: nat)
    requires limit > 0 && i < |packets| && forall j :: 0 <= j < |indices| ==> indices[j] < |packets|
    requires forall j :: 0 <= j < |indices| ==> Start(packets, limit, indices[j]) != Start(packets, limit, i)
    ensures i !in indices
  {
  }

  /** A command ahead that the receiver does not take is acknowledged when it is further ahead than the windows kept free. */
  lemma AcknowledgesAhead(packets: Packets, limit: nat, delivered: nat, i: nat, k: nat)
    requires IsCommand(packets, limit, i, k) && delivered <= |packets|
    requires !Takes(Start(packets, limit, i), Current(packets, limit, delivered))
    requires Number(packets, limit, i, k) < Current(packets, limit, delivered) + NUMBERS
    ensures Current(packets, limit, delivered) < Start(packets, limit, i) ==>
      var n, current := Number(packets, limit, i, k), Current(packets, limit, delivered);
      Acknowledges(Wire(n), Wire(current)) <==> Window(n) > Window(current) + FREE_RELIABLE_WINDOWS
  {
    var n, current := Number(packets, limit, i, k), Current(packets, limit, delivered);
    if current < Start(packets, limit, i) {
      AheadIsTrue(n, current);
      assert Window(n) >= Window(Start(packets, limit, i));
    }
  }

  /** The command's window is neither the last the receiver could take from nor the one after it; whole laps do not matter. */
  ghost predicate AckReaches(n: nat, current: nat) {
    var ahead := (Window(n) - Window(current)) % RELIABLE_WINDOWS;
    ahead != FREE_RELIABLE_WINDOWS - 1 && ahead != FREE_RELIABLE_WINDOWS
  }

  lemma AckTest(n: nat, current: nat)
    ensures Acknowledges(Wire(n), Wire(current)) <==> AckReaches(n, current)
  {
    WireWindow(n);
    WireWindow(current);
    var a, b := Window(Wire(n)), Window(Wire(current));
    var laps := n / NUMBERS - current / NUMBERS;
    assert Window(n) - Window(current) == laps * RELIABLE_WINDOWS + (a - b);
    assert a < RELIABLE_WINDOWS && b < RELIABLE_WINDOWS;
    if a < b {
      ModIs(Window(n) - Window(current), RELIABLE_WINDOWS, laps - 1, a - b + RELIABLE_WINDOWS);
    } else {
      ModIs(Window(n) - Window(current), RELIABLE_WINDOWS, laps, a - b);
    }
  }

  lemma Wholes(packets: Packets, limit: nat, i: nat, k: nat)
    requires IsCommand(packets, limit, i, k)
    ensures |packets[i]| <= limit ==> k == 0
    ensures CommandOf(packets[i], limit, Start(packets, limit, i), k).number == Wire(Number(packets, limit, i, k))
  {
  }

  /** An incomplete entry does not make the next packet whole. */
  lemma StillSettled(incoming: seq<Incoming>, indices: seq<nat>, packets: Packets, limit: nat, before: set<nat>,
                     received: set<nat>, delivered: nat, at: nat, k: nat)
    requires Holds(incoming, indices, packets, limit, received, delivered) && Settled(packets, limit, before, delivered)
    requires at < |incoming| && incoming[at].fragmentsRemaining > 0 && IsCommand(packets, limit, indices[at], k)
    requires received == before + {Number(packets, limit, indices[at], k)}
    ensures Settled(packets, limit, received, delivered)
  {
    hide EntryOk, Number;
    EntryIsComplete(incoming[at], indices[at], packets, limit, received, delivered);
    if delivered < |packets| && delivered != indices[at] && Complete(packets, limit, received, delivered) {
      forall l | 0 <= l < Span(|packets[delivered]|, limit) ensures Number(packets, limit, delivered, l) in before {
        NumberTells(packets, limit, indices[at], k, delivered, l);
      }
    }
  }

  /** The search has found packet i. */
  lemma SamePacket(incoming: seq<Incoming>, indices: seq<nat>, packets: Packets, limit: nat, received: set<nat>,
                   delivered: nat, j: nat, i: nat)
    requires Holds(incoming, indices, packets, limit, received, delivered) && j < |indices| && i < |packets|
    requires Start(packets, limit, indices[j]) == Start(packets, limit, i)
    ensures indices[j] == i
    ensures |packets[i]| <= limit ==> Number(packets, limit, i, 0) in received
  {
    if indices[j] < i { StartsGrow(packets, limit, indices[j], i); }
    if i < indices[j] { StartsGrow(packets, limit, i, indices[j]); }
  }

  /** The search has not found packet i: its entry would be a good one. */
  lemma EntryIsNew(incoming: seq<Incoming>, indices: seq<nat>, packets: Packets, limit: nat, received: set<nat>,
                   delivered: nat, at: nat, i: nat, data: seq<Byte>)
    requires Holds(incoming, indices, packets, limit, received, delivered) && i < |packets| && at <= |indices|
    requires Takes(Start(packets, limit, i), Current(packets, limit, delivered)) && |data| == |packets[i]|
    requires |packets[i]| <= limit ==> data == packets[i]
    requires forall j :: at <= j < |indices| ==> Start(packets, limit, indices[j]) > Start(packets, limit, i)
    requires forall j :: 0 <= j < at ==> Start(packets, limit, indices[j]) < Start(packets, limit, i)
    ensures Fits(indices, at, i) && delivered <= i
    ensures var n := if |packets[i]| <= limit then 0 else Span(|packets[i]|, limit);
      var more := if n == 0 then {Number(packets, limit, i, 0)} else {};
      EntryOk(Incoming(Wire(Start(packets, limit, i)), n, n, seq(n, _ => false), data), i, packets, limit, received + more, delivered)
  {
    hide Start, Number, EntryOk;
    FoundFits(indices, packets, limit, at, i);
    TakenIsNew(incoming, indices, packets, limit, received, delivered, i, 0);
    if |packets[i]| <= limit {
      WholeEntry(i, packets, limit, received, delivered);
    } else {
      forall k | 0 <= k < Span(|packets[i]|, limit) ensures Number(packets, limit, i, k) !in received {
        TakenIsNew(incoming, indices, packets, limit, received, delivered, i, k);
      }
      EmptyEntry(data, i, packets, limit, received, delivered);
      assert received + {} == received;
    }
  }

  lemma WholeEntry(i: nat, packets: Packets, limit: nat, received: set<nat>, delivered: nat)
    requires limit > 0 && delivered <= i < |packets| && |packets[i]| <= limit
    requires Takes(Start(packets, limit, i), Current(packets, limit, delivered))
    ensures EntryOk(Incoming(Wire(Start(packets, limit, i)), 0, 0, seq(0, _ => false), packets[i]), i, packets, limit,
                    received + {Number(packets, limit, i, 0)}, delivered)
  {
  }
}
