/** Which sequence numbers a channel's packets take, in the order they are sent. */
module Numbering {
  import opened Bytes
  import opened SequenceNumbers
  import opened Fragmentation

  type Packets = seq<seq<Byte>>

  function Total(packets: Packets, limit: nat): nat
    requires limit > 0
  {
    if packets == [] then 0
    else Total(packets[..|packets| - 1], limit) + Span(|packets[|packets| - 1]|, limit)
  }

  /** The first number of packet i, were numbers not to wrap. */
  function Start(packets: Packets, limit: nat, i: nat): nat
    requires limit > 0 && i <= |packets|
  {
    1 + Total(packets[..i], limit)
  }

  function Number(packets: Packets, limit: nat, i: nat, k: nat): nat
    requires limit > 0 && i < |packets|
  {
    Start(packets, limit, i) + k
  }

  predicate IsCommand(packets: Packets, limit: nat, i: nat, k: nat) {
    limit > 0 && i < |packets| && k < Span(|packets[i]|, limit)
  }

  lemma StartNext(packets: Packets, limit: nat, i: nat)
    requires limit > 0 && i < |packets|
    ensures Start(packets, limit, i + 1) == Start(packets, limit, i) + Span(|packets[i]|, limit)
  {
    assert packets[..i + 1][..i] == packets[..i];
  }

  lemma {:induction false} StartsGrow(packets: Packets, limit: nat, i: nat, j: nat)
    requires limit > 0 && i < j <= |packets|
    ensures Start(packets, limit, i) + Span(|packets[i]|, limit) <= Start(packets, limit, j)
    decreases j - i
  {
    StartNext(packets, limit, i);
    if i + 1 < j { StartsGrow(packets, limit, i + 1, j); }
  }

  lemma SamePrefix(packets: Packets, more: Packets, limit: nat, i: nat)
    requires limit > 0 && packets <= more && i <= |packets|
    ensures Start(packets, limit, i) == Start(more, limit, i)
  {
    assert packets[..i] == more[..i];
  }

  /** No two commands share a number. */
  lemma NumberTells(packets: Packets, limit: nat, i: nat, k: nat, j: nat, l: nat)
    requires IsCommand(packets, limit, i, k) && IsCommand(packets, limit, j, l)
    ensures Number(packets, limit, i, k) == Number(packets, limit, j, l) ==> i == j && k == l
    ensures i < j ==> Number(packets, limit, i, k) < Number(packets, limit, j, l)
  {
    if i < j { StartsGrow(packets, limit, i, j); }
    if j < i { StartsGrow(packets, limit, j, i); }
  }

  ghost predicate Complete(packets: Packets, limit: nat, received: set<nat>, i: nat)
    requires limit > 0 && i < |packets|
  {
    forall k {:trigger Number(packets, limit, i, k)} :: 0 <= k < Span(|packets[i]|, limit) ==> Number(packets, limit, i, k) in received
  }

  lemma NumberBounds(packets: Packets, limit: nat, i: nat, k: nat)
    requires IsCommand(packets, limit, i, k)
    ensures 1 <= Start(packets, limit, i) <= Number(packets, limit, i, k) < Start(packets, limit, |packets|)
  {
    StartsGrow(packets, limit, i, |packets|);
  }
}
