/** Who owns a packet: the commands queued for it, over all the queues of all peers of a host. */
module Ownership {
  class Packet {
    var referenceCount: nat
    var destroyed: bool

    /** enet_packet_create */
    constructor ()
      ensures referenceCount == 0 && !destroyed
    {
      referenceCount, destroyed := 0, false;
    }

    /** enet_packet_destroy */
    method Destroy()
      requires !destroyed
      modifies `destroyed
      ensures destroyed
    {
      destroyed := true;
    }
  }

  /** A queued command, by the packet it carries; pings and the like carry none. */
  type Command = Packet?

  type Queue = seq<Command>

  ghost function Refs(q: Queue, p: Packet): nat {
    if q == [] then 0 else (if q[0] == p then 1 else 0) + Refs(q[1..], p)
  }

  ghost function Total(queues: seq<Queue>, p: Packet): nat {
    if queues == [] then 0 else Refs(queues[0], p) + Total(queues[1..], p)
  }

  lemma {:induction false} RefsJoined(a: Queue, b: Queue, p: Packet)
    ensures Refs(a + b, p) == Refs(a, p) + Refs(b, p)
  {
    if a == [] {
      assert a + b == b;
    } else {
      RefsJoined(a[1..], b, p);
      assert (a + b)[1..] == a[1..] + b;
    }
  }

  lemma RefsAt(q: Queue, i: nat, p: Packet)
    requires i < |q|
    ensures Refs(q[..i] + q[i + 1..], p) + (if q[i] == p then 1 else 0) == Refs(q, p)
  {
    assert q == q[..i] + ([q[i]] + q[i + 1..]);
    RefsJoined(q[..i], [q[i]] + q[i + 1..], p);
    RefsJoined([q[i]], q[i + 1..], p);
    RefsJoined(q[..i], q[i + 1..], p);
  }

  lemma {:induction false} TotalAt(queues: seq<Queue>, k: nat, q: Queue, p: Packet)
    requires k < |queues|
    ensures Total(queues[k := q], p) + Refs(queues[k], p) == Total(queues, p) + Refs(q, p)
  {
    if k == 0 {
      assert queues[0 := q][1..] == queues[1..];
    } else {
      TotalAt(queues[1..], k - 1, q, p);
      assert queues[k := q][1..] == queues[1..][k - 1 := q];
    }
  }

  lemma {:induction false} NoneQueued(queues: seq<Queue>, p: Packet)
    ensures Total(queues, p) == 0 <==> forall k :: 0 <= k < |queues| ==> Refs(queues[k], p) == 0
  {
    if queues != [] {
      NoneQueued(queues[1..], p);
      assert forall k :: 1 <= k < |queues| ==> queues[k] == queues[1..][k - 1];
    }
  }

  lemma {:induction false} QueuedCounts(q: Queue, p: Packet)
    ensures Refs(q, p) > 0 <==> p in q
  {
    if q != [] { QueuedCounts(q[1..], p); }
  }

  class Host {
    var queues: seq<Queue>
    ghost var packets: set<Packet>

    /** Every packet's count is the number of commands queued for it, and none of them has been destroyed. */
    ghost predicate Valid()
      reads this, packets
    {
      && (forall k, i :: 0 <= k < |queues| && 0 <= i < |queues[k]| && queues[k][i] != null ==> queues[k][i] in packets)
      && (forall p :: p in packets ==> p.referenceCount == Total(queues, p))
      && (forall p :: p in packets && p.referenceCount > 0 ==> !p.destroyed)
    }

    constructor (queueCount: nat)
      ensures Valid() && |queues| == queueCount && packets == {}
    {
      queues := seq(queueCount, _ => []);
      packets := {};
    }

    /** A packet that the application has created, or has got back. */
    ghost method Know(p: Packet)
      requires Valid() && p.referenceCount == 0 && (p in packets || forall k :: 0 <= k < |queues| ==> p !in queues[k])
      modifies `packets
      ensures Valid() && packets == old(packets) + {p} && queues == old(queues)
    {
      if p !in packets {
        forall k | 0 <= k < |queues| ensures Refs(queues[k], p) == 0 { QueuedCounts(queues[k], p); }
        NoneQueued(queues, p);
        packets := packets + {p};
      }
    }

    /** A command for the packet at the end of a queue: enet_peer_queue_outgoing_command, and fragments one by one. */
    method Queue(k: nat, p: Packet)
      requires Valid() && k < |queues| && p in packets && !p.destroyed
      modifies this`queues, p`referenceCount
      ensures Valid() && queues == old(queues)[k := old(queues[k]) + [p]] && p.referenceCount == old(p.referenceCount) + 1
    {
      ghost var q := queues[k] + [p];
      forall r | r in packets ensures Total(queues[k := q], r) == Total(queues, r) + (if r == p then 1 else 0) {
        TotalAt(queues, k, q, r);
        RefsJoined(queues[k], [p], r);
      }
      p.referenceCount := p.referenceCount + 1;
      queues := queues[k := queues[k] + [p]];
    }

    /** A command goes on from one queue to another: sent, repeated, dispatched. */
    method Move(k: nat, i: nat, l: nat, at: nat)
      requires Valid() && k < |queues| && l < |queues| && k != l && i < |queues[k]| && at <= |queues[l]|
      modifies this`queues
      ensures Valid()
      ensures var c := old(queues[k][i]);
        queues == old(queues)[k := old(queues[k][..i] + queues[k][i + 1..])][l := old(queues[l][..at]) + [c] + old(queues[l][at..])]
    {
      var c := queues[k][i];
      ghost var before := queues;
      var from, to := queues[k][..i] + queues[k][i + 1..], queues[l][..at] + [c] + queues[l][at..];
      forall r | r in packets ensures Total(before[k := from][l := to], r) == Total(before, r) { Moved(before, k, i, l, at, r); }
      queues := queues[k := from][l := to];
    }

    /** A command leaves its queue, and the packet is destroyed with its last one. */
    method Release(k: nat, i: nat)
      requires Valid() && k < |queues| && i < |queues[k]|
      modifies this`queues, queues[k][i]
      ensures Valid() && queues == old(queues)[k := old(queues[k][..i] + queues[k][i + 1..])]
      ensures var p := old(queues[k][i]);
        p != null ==> (p.destroyed <==> Total(queues, p) == 0)
    {
      var p := queues[k][i];
      ghost var before := queues;
      var q := queues[k][..i] + queues[k][i + 1..];
      forall r | r in packets ensures Total(before[k := q], r) + (if r == p then 1 else 0) == Total(before, r) {
        TotalAt(before, k, q, r);
        RefsAt(before[k], i, r);
      }
      queues := queues[k := q];
      if p != null {
        p.referenceCount := p.referenceCount - 1;
        if p.referenceCount == 0 { p.Destroy(); }
      }
    }

    /** enet_peer_receive on a queue of dispatched commands: the packet goes to the application, which will destroy it. */
    method Receive(k: nat) returns (p: Command)
      requires Valid() && k < |queues|
      modifies this`queues, if queues[k] != [] then {queues[k][0]} else {}
      ensures Valid()
      ensures old(queues[k]) == [] ==> p == null && queues == old(queues)
      ensures old(queues[k]) != [] ==> p == old(queues[k][0]) && queues == old(queues)[k := old(queues[k][1..])]
      ensures p != null ==> !p.destroyed
    {
      if queues[k] == [] { return null; }
      p := queues[k][0];
      ghost var before := queues;
      var q := queues[k][1..];
      forall r | r in packets ensures Total(before[k := q], r) + (if r == p then 1 else 0) == Total(before, r) {
        TotalAt(before, k, q, r);
      }
      queues := queues[k := q];
      if p != null { p.referenceCount := p.referenceCount - 1; }
    }

    /** enet_peer_reset_outgoing_commands and enet_peer_remove_incoming_commands on a whole queue: exactly the packets whose
        last commands were in it are destroyed. */
    method Reset(k: nat)
      requires Valid() && k < |queues|
      modifies this`queues, packets
      ensures Valid() && queues == old(queues)[k := []] && packets == old(packets)
      ensures forall p :: p in packets ==>
        (p.destroyed <==> old(p.destroyed) || (old(Refs(queues[k], p)) > 0 && Total(queues, p) == 0))
    {
      ghost var first := queues[k];
      assert first[0..] == first;
      ghost var n := 0;
      while queues[k] != []
        invariant n <= |first| && Valid() && packets == old(packets) && |queues| == |old(queues)|
        invariant queues == old(queues)[k := first[n..]]
        invariant forall p :: p in packets ==>
          (p.destroyed <==> old(p.destroyed) || (Refs(first[..n], p) > 0 && Total(queues, p) == 0))
        decreases |queues[k]|
      {
        ghost var p := queues[k][0];
        ghost var now := queues;
        assert queues[k][..0] + queues[k][1..] == first[n + 1..];
        forall r | r in packets ensures Refs(first[..n + 1], r) == Refs(first[..n], r) + (if r == p then 1 else 0)
          && (r != p ==> Total(now[k := first[n + 1..]], r) == Total(now, r)) && (r == p ==> Total(now, r) > 0)
        {
          assert first[..n + 1] == first[..n] + [p];
          RefsJoined(first[..n], [p], r);
          TotalAt(now, k, first[n + 1..], r);
          RefsAt(now[k], 0, r);
        }
        Release(k, 0);
        n := n + 1;
      }
      assert first[..n] == first;
    }
  }

  lemma Moved(queues: seq<Queue>, k: nat, i: nat, l: nat, at: nat, r: Packet)
    requires k < |queues| && l < |queues| && k != l && i < |queues[k]| && at <= |queues[l]|
    ensures var from, to := queues[k][..i] + queues[k][i + 1..], queues[l][..at] + [queues[k][i]] + queues[l][at..];
      Total(queues[k := from][l := to], r) == Total(queues, r)
  {
    var from, to := queues[k][..i] + queues[k][i + 1..], queues[l][..at] + [queues[k][i]] + queues[l][at..];
    TotalAt(queues, k, from, r);
    TotalAt(queues[k := from], l, to, r);
    RefsAt(queues[k], i, r);
    RefsAt(to, at, r);
    assert to[..at] + to[at + 1..] == queues[l];
  }
}
