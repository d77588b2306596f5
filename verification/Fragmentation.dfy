/** Packets larger than a fragment, and what puts them together again. */
module Fragmentation {
  import opened Arithmetic
  import opened Bytes
  import opened SequenceNumbers

  const MAXIMUM_FRAGMENT_COUNT := 1024 * 1024

  /** How many sequence numbers a packet takes. */
  function Span(size: nat, fragmentLength: nat): (n: nat)
    requires fragmentLength > 0
    ensures n > 0
  {
    if size <= fragmentLength then 1 else (size + fragmentLength - 1) / fragmentLength
  }

  function Offset(k: nat, fragmentLength: nat): nat { k * fragmentLength }

  function End(k: nat, fragmentLength: nat, size: nat): nat {
    if Offset(k + 1, fragmentLength) <= size then Offset(k + 1, fragmentLength) else size
  }

  lemma SpanBounds(size: nat, fragmentLength: nat)
    requires 0 < fragmentLength < size
    ensures var n := Span(size, fragmentLength);
      1 < n <= size && Offset(n - 1, fragmentLength) < size <= Offset(n, fragmentLength)
  {
    CeilingBounds(size, fragmentLength, (size + fragmentLength - 1) / fragmentLength);
  }

  lemma OneSpan(size: nat, limit: nat)
    requires 0 < limit && size <= limit
    ensures Span(size, limit) == 1
  {
  }

  lemma OffsetsGrow(j: nat, k: nat, fragmentLength: nat)
    requires j <= k
    ensures Offset(j, fragmentLength) <= Offset(k, fragmentLength)
    ensures Offset(k + 1, fragmentLength) == Offset(k, fragmentLength) + fragmentLength
  {
    assert (k - j) * fragmentLength >= 0;
  }

  /** Every piece has at least one byte, and none more than fragmentLength. */
  lemma PieceBounds(size: nat, fragmentLength: nat, k: nat)
    requires 0 < fragmentLength < size && k < Span(size, fragmentLength)
    ensures Offset(k, fragmentLength) < End(k, fragmentLength, size) <= size
    ensures End(k, fragmentLength, size) - Offset(k, fragmentLength) <= fragmentLength
    ensures k + 1 < Span(size, fragmentLength) ==> End(k, fragmentLength, size) == Offset(k + 1, fragmentLength)
    ensures k + 1 == Span(size, fragmentLength) ==> End(k, fragmentLength, size) == size
  {
    var n := Span(size, fragmentLength);
    SpanBounds(size, fragmentLength);
    OffsetsGrow(k, n - 1, fragmentLength);
    OffsetsGrow(0, k, fragmentLength);
    if k + 1 < n { OffsetsGrow(k + 1, n - 1, fragmentLength); }
  }

  function Piece(data: seq<Byte>, fragmentLength: nat, k: nat): seq<Byte>
    requires 0 < fragmentLength < |data| && k < Span(|data|, fragmentLength)
  {
    PieceBounds(|data|, fragmentLength, k);
    data[Offset(k, fragmentLength)..End(k, fragmentLength, |data|)]
  }

  function Pieces(data: seq<Byte>, fragmentLength: nat, n: nat): seq<Byte>
    requires 0 < fragmentLength < |data| && n <= Span(|data|, fragmentLength)
  {
    if n == 0 then [] else Pieces(data, fragmentLength, n - 1) + Piece(data, fragmentLength, n - 1)
  }

  lemma {:induction false} PiecesAre(data: seq<Byte>, fragmentLength: nat, n: nat)
    requires 0 < fragmentLength < |data| && 0 < n <= Span(|data|, fragmentLength)
    ensures Pieces(data, fragmentLength, n) == data[..End(n - 1, fragmentLength, |data|)]
  {
    PieceBounds(|data|, fragmentLength, n - 1);
    if n > 1 {
      PiecesAre(data, fragmentLength, n - 1);
      PieceBounds(|data|, fragmentLength, n - 2);
    } else {
      assert Offset(0, fragmentLength) == 0;
    }
  }

  /** The pieces partition the packet. */
  lemma PiecesMakeThePacket(data: seq<Byte>, fragmentLength: nat)
    requires 0 < fragmentLength < |data|
    ensures Pieces(data, fragmentLength, Span(|data|, fragmentLength)) == data
  {
    var n := Span(|data|, fragmentLength);
    PiecesAre(data, fragmentLength, n);
    PieceBounds(|data|, fragmentLength, n - 1);
  }

  /** What goes over the network. */
  datatype Command =
    | SendReliable(number: nat, data: seq<Byte>)
    | SendFragment(number: nat, startNumber: nat, fragmentCount: nat, fragmentNumber: nat,
                   fragmentOffset: nat, totalLength: nat, data: seq<Byte>)

  /** The k-th command of a packet whose first number, were numbers not to wrap, is start. */
  function CommandOf(data: seq<Byte>, fragmentLength: nat, start: nat, k: nat): Command
    requires 0 < fragmentLength && k < Span(|data|, fragmentLength)
  {
    if |data| <= fragmentLength then SendReliable(Wire(start), data) else
      SendFragment(Wire(start + k), Wire(start), Span(|data|, fragmentLength), k,
                   Offset(k, fragmentLength), |data|, Piece(data, fragmentLength, k))
  }

  datatype Fragment = Fragment(number: nat, offset: nat, length: nat)

  function FragmentOf(size: nat, limit: nat, k: nat): Fragment
    requires 0 < limit < size && k < Span(size, limit)
  {
    PieceBounds(size, limit, k);
    Fragment(k, Offset(k, limit), End(k, limit, size) - Offset(k, limit))
  }

  /** The splitting loop of enet_peer_send; its fragmentLength shrinks with the last piece. */
  method Split(size: nat, limit: nat) returns (fragmentCount: nat, fragments: seq<Fragment>)
    requires 0 < limit < size
    ensures fragmentCount == |fragments| == Span(size, limit)
    ensures forall k :: 0 <= k < |fragments| ==> fragments[k] == FragmentOf(size, limit, k)
  {
    fragmentCount := (size + limit - 1) / limit;
    var fragmentLength, offset: nat := limit, 0;
    fragments := [];
    assert fragmentCount == Span(size, limit) && Offset(0, limit) == 0;
    hide Span, Offset, End;
    while offset < size
      invariant |fragments| <= Span(size, limit)
      invariant offset < size ==> |fragments| < Span(size, limit) && offset == Offset(|fragments|, limit) && fragmentLength == limit
      invariant offset >= size ==> |fragments| == Span(size, limit)
      invariant forall k :: 0 <= k < |fragments| ==> fragments[k] == FragmentOf(size, limit, k)
      decreases Span(size, limit) - |fragments|
    {
      SplitStep(size, limit, |fragments|);
      if size - offset < fragmentLength { fragmentLength := size - offset; }
      fragments := fragments + [Fragment(|fragments|, offset, fragmentLength)];
      offset := offset + fragmentLength;
    }
  }

  lemma SplitStep(size: nat, limit: nat, k: nat)
    requires 0 < limit < size && k < Span(size, limit)
    ensures var offset := Offset(k, limit); var length := if size - offset < limit then size - offset else limit;
      && offset < size && FragmentOf(size, limit, k) == Fragment(k, offset, length)
      && (k + 1 < Span(size, limit) ==> length == limit && offset + length == Offset(k + 1, limit) < size)
      && (k + 1 == Span(size, limit) ==> offset + length == size)
  {
    hide Span;
    PieceBounds(size, limit, k);
    OffsetsGrow(k, k, limit);
    if k + 1 < Span(size, limit) { PieceBounds(size, limit, k + 1); }
  }

  // Reassembly.

  function Clear(bits: seq<bool>): nat {
    if bits == [] then 0 else (if bits[0] then 0 else 1) + Clear(bits[1..])
  }

  lemma {:induction false} ClearSet(bits: seq<bool>, k: nat)
    requires k < |bits| && !bits[k]
    ensures Clear(bits) > 0 && Clear(bits[k := true]) == Clear(bits) - 1
  {
    if k > 0 {
      ClearSet(bits[1..], k - 1);
      assert bits[k := true][1..] == bits[1..][k - 1 := true];
    } else {
      assert bits[k := true][1..] == bits[1..];
    }
  }

  lemma {:induction false} ClearNone(bits: seq<bool>)
    ensures Clear(bits) == 0 <==> forall k :: 0 <= k < |bits| ==> bits[k]
  {
    if bits != [] {
      ClearNone(bits[1..]);
      assert forall k :: 1 <= k < |bits| ==> bits[k] == bits[1..][k - 1];
    }
  }

  lemma {:induction false} ClearAll(n: nat)
    ensures Clear(seq(n, _ => false)) == n
  {
    if n > 0 {
      ClearAll(n - 1);
      assert seq(n, _ => false)[1..] == seq(n - 1, _ => false);
    }
  }

  /** An entry of incomingReliableCommands; fragmentCount 0 stands for a packet that came in one command. */
  datatype Incoming = Incoming(number: nat, fragmentCount: nat, fragmentsRemaining: nat, fragments: seq<bool>, data: seq<Byte>)

  /** The part of a fragment's handling that writes to the entry. */
  function Filled(e: Incoming, k: nat, offset: nat, piece: seq<Byte>): Incoming
    requires k < |e.fragments| && e.fragmentsRemaining > 0 && offset + |piece| <= |e.data|
  {
    e.(fragmentsRemaining := e.fragmentsRemaining - 1, fragments := e.fragments[k := true],
       data := e.data[..offset] + piece + e.data[offset + |piece|..])
  }

  ghost predicate HasPiece(e: Incoming, data: seq<Byte>, fragmentLength: nat, k: nat)
    requires 0 < fragmentLength < |data| == |e.data| && k < Span(|data|, fragmentLength)
  {
    PieceBounds(|data|, fragmentLength, k);
    e.data[Offset(k, fragmentLength)..End(k, fragmentLength, |data|)] == Piece(data, fragmentLength, k)
  }

  /** e is data under assembly: its bits and its bytes are those of the fragments that have come. */
  ghost predicate Assembling(e: Incoming, data: seq<Byte>, fragmentLength: nat) {
    && 0 < fragmentLength < |data| == |e.data| && e.fragmentCount == |e.fragments| == Span(|data|, fragmentLength)
    && e.fragmentsRemaining == Clear(e.fragments)
    && forall k {:trigger e.fragments[k]} :: 0 <= k < |e.fragments| && e.fragments[k] ==> HasPiece(e, data, fragmentLength, k)
  }

  /** Whatever the order and the duplicates, the entry is complete when, and only when, every fragment has come,
      and then it is the packet. */
  lemma AssembledIsThePacket(e: Incoming, data: seq<Byte>, fragmentLength: nat)
    requires Assembling(e, data, fragmentLength)
    ensures e.fragmentsRemaining == 0 <==> forall k :: 0 <= k < |e.fragments| ==> e.fragments[k]
    ensures e.fragmentsRemaining == 0 ==> e.data == data
  {
    ClearNone(e.fragments);
    if e.fragmentsRemaining == 0 { AssembledUpTo(e, data, fragmentLength, Span(|data|, fragmentLength)); }
  }

  lemma {:induction false} AssembledUpTo(e: Incoming, data: seq<Byte>, fragmentLength: nat, n: nat)
    requires Assembling(e, data, fragmentLength) && 0 < n <= |e.fragments|
    requires forall k :: 0 <= k < |e.fragments| ==> e.fragments[k]
    ensures End(n - 1, fragmentLength, |data|) <= |data|
    ensures e.data[..End(n - 1, fragmentLength, |data|)] == data[..End(n - 1, fragmentLength, |data|)]
    ensures n == |e.fragments| ==> e.data == data
  {
    PieceBounds(|data|, fragmentLength, n - 1);
    assert e.fragments[n - 1] && HasPiece(e, data, fragmentLength, n - 1);
    var from, to := Offset(n - 1, fragmentLength), End(n - 1, fragmentLength, |data|);
    if n > 1 {
      AssembledUpTo(e, data, fragmentLength, n - 1);
      PieceBounds(|data|, fragmentLength, n - 2);
    } else {
      assert from == 0;
    }
    assert e.data[..to] == e.data[..from] + e.data[from..to];
    assert data[..to] == data[..from] + data[from..to];
  }

  lemma FilledKeeps(e: Incoming, data: seq<Byte>, fragmentLength: nat, k: nat)
    requires Assembling(e, data, fragmentLength) && k < |e.fragments| && !e.fragments[k]
    ensures e.fragmentsRemaining > 0
    ensures Offset(k, fragmentLength) + |Piece(data, fragmentLength, k)| <= |e.data|
    ensures Assembling(Filled(e, k, Offset(k, fragmentLength), Piece(data, fragmentLength, k)), data, fragmentLength)
  {
    ClearSet(e.fragments, k);
    PieceBounds(|data|, fragmentLength, k);
    var f := Filled(e, k, Offset(k, fragmentLength), Piece(data, fragmentLength, k));
    forall j | 0 <= j < |f.fragments| && f.fragments[j] ensures HasPiece(f, data, fragmentLength, j) {
      PieceBounds(|data|, fragmentLength, j);
      if j < k { OffsetsGrow(j + 1, k, fragmentLength); }
      if j > k { OffsetsGrow(k + 1, j, fragmentLength); }
      if j != k { assert HasPiece(e, data, fragmentLength, j); SpliceOutside(e.data, Piece(data, fragmentLength, k), Offset(k, fragmentLength), Offset(j, fragmentLength), End(j, fragmentLength, |data|)); }
    }
  }

  /** memcpy leaves the bytes outside its target alone. */
  lemma SpliceOutside(a: seq<Byte>, b: seq<Byte>, at: nat, from: nat, to: nat)
    requires at + |b| <= |a| && from <= to <= |a| && (to <= at || at + |b| <= from)
    ensures (a[..at] + b + a[at + |b|..])[from..to] == a[from..to]
  {
  }
}
