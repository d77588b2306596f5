/** The intrusive circular lists of list.c: nodes on the heap, and the sequences that their rings spell. */
module Lists {
  class Node {
    var next: Node
    var previous: Node

    constructor ()
      ensures next == this && previous == this
    {
      next, previous := this, this;
    }
  }

  ghost predicate Linked(a: Node, b: Node)
    reads a, b
  {
    a.next == b && b.previous == a
  }

  ghost predicate Distinct(s: seq<Node>) { forall i, j :: 0 <= i < j < |s| ==> s[i] != s[j] }

  ghost predicate Apart(a: seq<Node>, b: seq<Node>) {
    forall i, j :: 0 <= i < |a| && 0 <= j < |b| ==> a[i] != b[j]
  }

  /** Consecutive nodes are linked, in both directions. */
  ghost predicate Chain(s: seq<Node>)
    reads s
  {
    forall i :: 0 <= i < |s| - 1 ==> Linked(s[i], s[i + 1])
  }

  /** The nodes of one ring from its sentinel on, in the order of their next pointers. */
  ghost predicate Ring(ring: seq<Node>)
    reads ring
  {
    |ring| > 0 && Distinct(ring) && Chain(ring) && Linked(ring[|ring| - 1], ring[0])
  }

  /** The segment s put before the node at position at; before the sentinel means at the end. */
  function Spliced(ring: seq<Node>, at: nat, s: seq<Node>): seq<Node>
    requires at < |ring|
  {
    if at == 0 then ring + s else ring[..at] + s + ring[at..]
  }

  function Cut(ring: seq<Node>, from: nat, to: nat): seq<Node>
    requires from <= to <= |ring|
  {
    ring[..from] + ring[to..]
  }

  /** enet_list_clear */
  method Clear(sentinel: Node)
    modifies sentinel
    ensures Ring([sentinel])
  {
    sentinel.next := sentinel;
    sentinel.previous := sentinel;
  }

  /** enet_list_insert */
  method Insert(position: Node, data: Node, ghost ring: seq<Node>, ghost at: nat) returns (result: Node)
    requires Ring(ring) && at < |ring| && ring[at] == position && data !in ring
    modifies data, position, position.previous
    ensures result == data && Ring(Spliced(ring, at, [data]))
  {
    result := data;
    assert Apart([data], ring) by { assert forall j :: 0 <= j < |ring| ==> ring[j] in ring; }
    BeforeIs(ring, at);
    result.previous := position.previous;
    result.next := position;
    result.previous.next := result;
    position.previous := result;
    assert [data][0] == data;
    SplicedRing(ring, at, [data]);
  }

  /** enet_list_remove */
  method Remove(position: Node, ghost ring: seq<Node>, ghost at: nat) returns (result: Node)
    requires Ring(ring) && 0 < at < |ring| && ring[at] == position
    modifies position.previous, position.next
    ensures result == position && Ring(Cut(ring, at, at + 1))
  {
    BeforeIs(ring, at);
    AfterIs(ring, at);
    position.previous.next := position.next;
    position.next.previous := position.previous;
    CutRing(ring, at, at + 1);
    return position;
  }

  /** enet_list_move: the nodes from first to last leave their ring and enter position's, in order, before position.
      position may be in their ring too, when it is not among them. */
  method Move(position: Node, first: Node, last: Node, ghost from: seq<Node>, ghost i: nat, ghost j: nat,
              ghost ring: seq<Node>, ghost at: nat) returns (result: Node)
    requires Ring(from) && 0 < i <= j < |from| && from[i] == first && from[j] == last
    requires at < |ring| && ring[at] == position
    requires ring == Cut(from, i, j + 1) || (Ring(ring) && Apart(from, ring))
    modifies first, last, first.previous, last.next, position, position.previous
    ensures result == first
    ensures Ring(Spliced(ring, at, from[i..j + 1]))
    ensures ring != Cut(from, i, j + 1) ==> Ring(Cut(from, i, j + 1))
  {
    assert Distinct(from);
    hide Ring;
    ghost var segment := from[i..j + 1];
    BeforeIs(from, i);
    AfterIs(from, j);
    SegmentApart(from, i, j);
    Unlink(first, last, from, i, j);
    if ring != Cut(from, i, j + 1) {
      BeforeIs(ring, at);
      OtherRing(from, i, j, ring, at);
    }
    Relink(position, first, last, ring, at, segment);
    return first;
  }

  /** The first two assignments of enet_list_move. */
  method Unlink(first: Node, last: Node, ghost from: seq<Node>, ghost i: nat, ghost j: nat)
    requires Ring(from) && 0 < i <= j < |from| && from[i] == first && from[j] == last
    modifies first.previous`next, last.next`previous
    ensures last.next.previous == first.previous && Ring(Cut(from, i, j + 1)) && Chain(from[i..j + 1])
  {
    BeforeIs(from, i);
    AfterIs(from, j);
    first.previous.next := last.next;
    last.next.previous := first.previous;
    CutRing(from, i, j + 1);
  }

  /** The last four assignments of enet_list_move. */
  method Relink(position: Node, first: Node, last: Node, ghost ring: seq<Node>, ghost at: nat, ghost s: seq<Node>)
    requires Ring(ring) && at < |ring| && ring[at] == position
    requires |s| > 0 && s[0] == first && s[|s| - 1] == last && Distinct(s) && Chain(s) && Apart(s, ring)
    modifies first, last, position, position.previous
    ensures Ring(Spliced(ring, at, s))
  {
    BeforeIs(ring, at);
    first.previous := position.previous;
    last.next := position;
    first.previous.next := first;
    position.previous := last;
    SplicedRing(ring, at, s);
  }

  lemma SegmentApart(from: seq<Node>, i: nat, j: nat)
    requires Ring(from) && 0 < i <= j < |from|
    ensures Distinct(from[i..j + 1]) && Apart(from[i..j + 1], Cut(from, i, j + 1))
  {
  }

  /** enet_list_size */
  method Size(sentinel: Node, ghost ring: seq<Node>) returns (size: nat)
    requires Ring(ring) && ring[0] == sentinel
    ensures size == |ring| - 1
  {
    size := 0;
    var position := sentinel.next;
    while position != sentinel
      invariant size < |ring| && position == if size + 1 < |ring| then ring[size + 1] else sentinel
      decreases |ring| - size
    {
      size := size + 1;
      position := position.next;
    }
  }

  lemma BeforeIs(ring: seq<Node>, at: nat)
    requires Ring(ring) && at < |ring|
    ensures ring[at].previous == if at == 0 then ring[|ring| - 1] else ring[at - 1]
    ensures Linked(ring[at].previous, ring[at])
  {
    if at > 0 { assert Linked(ring[at - 1], ring[at]); }
  }

  lemma AfterIs(ring: seq<Node>, at: nat)
    requires Ring(ring) && at < |ring|
    ensures ring[at].next == if at == |ring| - 1 then ring[0] else ring[at + 1]
    ensures Linked(ring[at], ring[at].next)
  {
    if at < |ring| - 1 { assert Linked(ring[at], ring[at + 1]); }
  }

  /** Another ring's node is none of those that stay behind. */
  lemma OtherRing(from: seq<Node>, i: nat, j: nat, ring: seq<Node>, at: nat)
    requires 0 < i <= j < |from| && at < |ring| && Distinct(from) && Apart(from, ring)
    ensures forall k :: 0 <= k < |from| ==> from[k] !in ring
    ensures forall x :: x in Cut(from, i, j + 1) ==> x != from[i] && x != from[j] && x !in ring
    ensures ring[at] in ring && (if at == 0 then ring[|ring| - 1] else ring[at - 1]) in ring
  {
  }

  lemma DistinctJoined(a: seq<Node>, b: seq<Node>)
    requires Distinct(a) && Distinct(b) && Apart(a, b)
    ensures Distinct(a + b)
  {
  }

  lemma DistinctSpliced(ring: seq<Node>, at: nat, s: seq<Node>)
    requires at < |ring| && Distinct(ring) && Distinct(s) && Apart(s, ring)
    ensures Distinct(Spliced(ring, at, s))
  {
    if at == 0 {
      DistinctJoined(ring, s);
    } else {
      DistinctJoined(ring[..at], s);
      DistinctJoined(ring[..at] + s, ring[at..]);
    }
  }

  /** What the pointers must be for a segment to be part of a ring. */
  lemma SplicedRing(ring: seq<Node>, at: nat, s: seq<Node>)
    requires at < |ring| && |s| > 0 && Distinct(ring) && Distinct(s) && Chain(s) && Apart(s, ring)
    requires forall i :: 0 <= i < |ring| - 1 && i + 1 != at ==> Linked(ring[i], ring[i + 1])
    requires at != 0 ==> Linked(ring[|ring| - 1], ring[0])
    requires Linked(if at == 0 then ring[|ring| - 1] else ring[at - 1], s[0]) && Linked(s[|s| - 1], ring[at])
    ensures Ring(Spliced(ring, at, s))
  {
    DistinctSpliced(ring, at, s);
    hide Distinct, Apart, Linked;
  }

  lemma CutRing(ring: seq<Node>, from: nat, to: nat)
    requires 0 < from < to <= |ring| && Distinct(ring)
    requires forall i :: 0 <= i < |ring| - 1 && !(from - 1 <= i < to) ==> Linked(ring[i], ring[i + 1])
    requires to < |ring| ==> Linked(ring[from - 1], ring[to]) && Linked(ring[|ring| - 1], ring[0])
    requires to == |ring| ==> Linked(ring[from - 1], ring[0])
    ensures Ring(Cut(ring, from, to))
  {
  }
}
