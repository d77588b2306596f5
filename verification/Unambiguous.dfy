/** Different data never share a stream, although no stream carries an end marker. */
module Unambiguity {
  import opened Bytes
  import opened Counting
  import opened RangeArithmetic
  import opened PpmModel

  lemma SlotsApart(p: Path, c: Context, v: Byte, w: Byte)
    requires v < w
    ensures SlotOf(p, c, v).under + SlotOf(p, c, v).count <= SlotOf(p, c, w).under
  {
    SumSplit(c.counts, 0, v, w);
    SumSplit(c.counts, v, v + 1, w);
    assert (w - v) * Minimum(p) >= Minimum(p);
  }

  lemma PassedAlike(x: Progress, v: Byte, w: Byte)
    requires Coherent(x) && !Settles(x, v) && !Settles(x, w)
    ensures Passed(x, v) == Passed(x, w)
  {
  }

  /** A stream has one first byte. */
  lemma {:induction false} SameByte(x: Progress, v: Byte, w: Byte, s: seq<Byte>, tail: seq<Byte>, tail': seq<Byte>)
    requires Ahead(x, v, s, tail) && Ahead(x, w, s, tail')
    ensures v == w
    decreases |x.path|
  {
    hide Outcome, FirstCoded, Window, GoodContext, CodedAll;
    var c := x.contexts[x.path];
    SlotCodes(x.path, c, v);
    SlotCodes(x.path, c, w);
    if Settles(x, v) || Settles(x, w) {
      AheadCode(x, v, s, tail);
      AheadCode(x, w, s, tail');
      if v < w { SlotsApart(x.path, c, v, w); }
      if w < v { SlotsApart(x.path, c, w, v); }
    } else {
      PassedAlike(x, v, w);
      AheadFirst(x, v, s, tail);
      AheadFirst(x, w, s, tail');
      SameByte(Passed(x, v), v, w, s, tail, tail');
    }
  }

  /** The stream has run into its trailing zeros. */
  ghost predicate AtEnd(x: Progress, s: seq<Byte>) {
    |x.done| <= |s| <= |x.done| + 4 && Window(s[|x.done|..]) == x.iv.low
  }

  lemma AtEndPassed(x: Progress, v: Byte, s: seq<Byte>, tail: seq<Byte>)
    requires Ahead(x, v, s, tail) && !Settles(x, v) && AtEnd(x, s)
    ensures AtEnd(Passed(x, v), s)
  {
    hide Outcome, Window, CodedAll, SameTop, Chain, ChainGood;
    var c, rest := x.contexts[x.path], s[|x.done|..];
    SlotCodes(x.path, c, v);
    AheadFirst(x, v, s, tail);
    if Escapable(c) {
      NarrowSound(x.iv, EscapeSlot(c));
      NormaliseAtEnd(Narrowed(x.iv, EscapeSlot(c)), rest);
    }
    assert Drop(rest, |FirstCoded(x, v).0|) == s[|Passed(x, v).done|..];
  }

  lemma AtEndSettles(x: Progress, v: Byte, s: seq<Byte>, tail: seq<Byte>)
    requires Ahead(x, v, s, tail) && Settles(x, v)
    ensures !AtEnd(x, s)
  {
    hide Outcome, Window, FirstCoded, CodedAll, SameTop, Chain, ChainGood;
    SlotCodes(x.path, x.contexts[x.path], v);
    AheadCode(x, v, s, tail);
  }

  /** Where there is a byte to come, the stream has not run into its trailing zeros. */
  lemma {:induction false} NotAtEnd(x: Progress, v: Byte, s: seq<Byte>, tail: seq<Byte>)
    requires Ahead(x, v, s, tail)
    ensures !AtEnd(x, s)
    decreases |x.path|
  {
    hide Outcome, FirstCoded, GoodContext, Chain, ChainGood, AtEnd;
    if Settles(x, v) {
      AtEndSettles(x, v, s, tail);
    } else if AtEnd(x, s) {
      AtEndPassed(x, v, s, tail);
      AheadFirst(x, v, s, tail);
      NotAtEnd(Passed(x, v), v, s, tail);
    }
  }

  lemma EndTells(st: State, iv: Interval, data: seq<Byte>)
    requires Coding(st, iv) && data != []
    ensures Encoded(st, iv, data) != Encoded(st, iv, [])
  {
    hide Outcome, Window, StepSlots, CodedAll, Ahead, Coherent;
    FlushWindow(iv.low);
    AheadStart(st, iv, data);
    NotAtEnd(Progress(st.contexts, st.predicted, iv, []), data[0], Encoded(st, iv, data), AheadTail(st, iv, data));
    assert Encoded(st, iv, [])[0..] == Encoded(st, iv, []);
  }

  lemma FirstTells(st: State, iv: Interval, a: seq<Byte>, b: seq<Byte>)
    requires Coding(st, iv) && a != [] && b != [] && Encoded(st, iv, a) == Encoded(st, iv, b)
    ensures a[0] == b[0] && AheadTail(st, iv, a) == AheadTail(st, iv, b)
  {
    hide Outcome, Encoded, Ahead, StepSlots, CodedAll, Coherent, AheadTail;
    AheadStart(st, iv, a);
    AheadStart(st, iv, b);
    var x := Progress(st.contexts, st.predicted, iv, []);
    SameByte(x, a[0], b[0], Encoded(st, iv, a), AheadTail(st, iv, a), AheadTail(st, iv, b));
    SameTail(CodedAll(iv, StepSlots(st, a[0])).0, AheadTail(st, iv, a), AheadTail(st, iv, b));
  }

  lemma SameTail(a: seq<Byte>, b: seq<Byte>, c: seq<Byte>)
    requires a + b == a + c
    ensures b == c
  {
    assert b == (a + b)[|a|..] && c == (a + c)[|a|..];
  }

  lemma {:induction false} Unambiguous(st: State, iv: Interval, a: seq<Byte>, b: seq<Byte>)
    requires Coding(st, iv) && Encoded(st, iv, a) == Encoded(st, iv, b)
    ensures a == b
    decreases |a|
  {
    hide Next, StepSlots, CodedAll, Encoded;
    if a == [] || b == [] {
      if a != [] { EndTells(st, iv, a); }
      if b != [] { EndTells(st, iv, b); }
    } else {
      FirstTells(st, iv, a, b);
      NextIsGood(st, a[0]);
      Unambiguous(Next(st, a[0]), CodedAll(iv, StepSlots(st, a[0])).1, a[1..], b[1..]);
    }
  }

  /** Decoding can only ever have one answer. */
  lemma CompressedTells(a: seq<Byte>, b: seq<Byte>)
    requires Compressed(a) == Compressed(b)
    ensures a == b
  {
    InitialIsGood();
    Unambiguous(Initial(), Start, a, b);
  }

  lemma OnlyNothingIsEmpty(data: seq<Byte>)
    ensures Compressed(data) == [] <==> data == []
  {
    assert Compressed([]) == [];
    if Compressed(data) == [] { CompressedTells(data, []); }
  }
}
