module RangeArithmetic {
  import opened Arithmetic
  import opened Bytes

  const TOP: int := 0x100_0000
  const BOTTOM: int := 0x1_0000
  const WORD: int := 0x1_0000_0000

  datatype Interval = Interval(low: nat, range: nat)

  datatype Slot = Slot(under: nat, count: nat, total: nat)

  const Start := Interval(0, WORD - 1)

  /** (low ^ (low + range)) < TOP in 32-bit words: the top bytes agree. */
  predicate SameTop(iv: Interval) { iv.low / TOP == (iv.low + iv.range) % WORD / TOP }

  ghost predicate Sound(iv: Interval) {
    && 0 <= iv.low < WORD && 1 <= iv.range < WORD && iv.low + iv.range <= WORD
    && (iv.low + iv.range == WORD ==> iv.low >= TOP)
  }

  predicate Ready(iv: Interval) { !SameTop(iv) && iv.range >= BOTTOM }

  function Narrowed(iv: Interval, slot: Slot): Interval
    requires slot.total > 0
  {
    var r := iv.range / slot.total;
    Interval(iv.low + slot.under * r, r * slot.count)
  }

  ghost predicate Codes(slot: Slot) { 0 < slot.count && slot.under + slot.count <= slot.total < BOTTOM }

  /** One turn of the normalising loop. */
  function Shifted(iv: Interval): Interval {
    var range := if SameTop(iv) then iv.range else (WORD - iv.low) % BOTTOM;
    Interval(iv.low * 256 % WORD, range * 256 % WORD)
  }

  ghost function Slack(iv: Interval): nat
    requires Sound(iv)
  {
    if iv.low + iv.range == WORD then WORD - iv.range else 2 * WORD - iv.range
  }

  lemma ShiftLow(low: nat)
    requires low < WORD
    ensures low * 256 % WORD == low % TOP * 256
  {
    ModIs(low * 256, WORD, low / TOP, low % TOP * 256);
  }

  /** With agreeing top bytes the interval stays inside one multiple of TOP. */
  lemma SameTopShift(iv: Interval)
    requires Sound(iv) && SameTop(iv)
    ensures iv.low + iv.range < WORD && iv.low % TOP + iv.range < TOP
  {
    assert iv.low + iv.range < WORD;
    var top := iv.low / TOP;
    assert iv.low + iv.range < top * TOP + TOP;
  }

  /** With differing top bytes and a small range, the next multiple of BOTTOM is the next multiple of TOP. */
  lemma BoundaryShift(iv: Interval)
    requires Sound(iv) && !SameTop(iv) && iv.range < BOTTOM
    ensures (WORD - iv.low) % BOTTOM == TOP - iv.low % TOP <= iv.range
  {
    var top, rest := iv.low / TOP, iv.low % TOP;
    if rest + iv.range < TOP { ModIs(iv.low + iv.range, TOP, top, rest + iv.range); }
    assert rest + iv.range >= TOP;
    ModIs(WORD - iv.low, BOTTOM, (255 - top) * 256, TOP - rest);
  }

  lemma ShiftSound(iv: Interval)
    requires Sound(iv) && !Ready(iv)
    ensures Sound(Shifted(iv)) && Slack(Shifted(iv)) < Slack(iv)
    ensures !SameTop(iv) ==> 0 < (WORD - iv.low) % BOTTOM <= iv.range
    ensures SameTop(iv) ==> Shifted(iv).range == 256 * iv.range
  {
    ShiftLow(iv.low);
    if SameTop(iv) { SameTopShift(iv); } else { BoundaryShift(iv); }
  }

  function Normalise(iv: Interval): (r: (seq<Byte>, Interval))
    requires Sound(iv)
    ensures Sound(r.1) && Ready(r.1)
    decreases Slack(iv)
  {
    if Ready(iv) then ([], iv) else
      ShiftSound(iv);
      var (rest, last) := Normalise(Shifted(iv));
      ([iv.low / TOP] + rest, last)
  }

  /** The i-th byte of a stream that goes on with zeros for ever. */
  function At(s: seq<Byte>, i: nat): Byte { if i < |s| then s[i] else 0 }

  /** What the decoder holds in its 32-bit code word in front of the stream s. */
  function Window(s: seq<Byte>): nat {
    At(s, 0) * 0x100_0000 + At(s, 1) * 0x1_0000 + At(s, 2) * 0x100 + At(s, 3)
  }

  function Drop(s: seq<Byte>, n: nat): seq<Byte> { if n <= |s| then s[n..] else [] }

  ghost predicate Within(iv: Interval, w: nat) { iv.low <= w < iv.low + iv.range }

  lemma WindowShift(s: seq<Byte>)
    ensures Window(s) == At(s, 0) * 0x100_0000 + Window(Drop(s, 1)) / 256
    ensures Window(Drop(s, 1)) == Window(s) * 256 % WORD + At(s, 4)
  {
    forall i: nat ensures At(Drop(s, 1), i) == At(s, i + 1) {}
  }

  /** A stream whose tail is within the normalised interval is, as a whole, within the interval before. */
  lemma {:induction false} NormaliseKeeps(iv: Interval, tail: seq<Byte>)
    requires Sound(iv) && Within(Normalise(iv).1, Window(tail))
    ensures Within(iv, Window(Normalise(iv).0 + tail))
    decreases Slack(iv)
  {
    if Ready(iv) {
      assert Normalise(iv).0 + tail == tail;
    } else {
      ShiftSound(iv);
      var next := Shifted(iv);
      NormaliseKeeps(next, tail);
      var s := Normalise(iv).0 + tail;
      assert Drop(s, 1) == Normalise(next).0 + tail;
      WindowShift(s);
      WithinShift(iv, Window(Drop(s, 1)));
    }
  }

  lemma WithinShift(iv: Interval, w: nat)
    requires Sound(iv) && !Ready(iv) && Within(Shifted(iv), w)
    ensures Within(iv, iv.low / TOP * TOP + w / 256)
  {
    ShiftSound(iv);
    var rest := iv.low % TOP;
    ShiftLow(iv.low);
    var range := if SameTop(iv) then iv.range else (WORD - iv.low) % BOTTOM;
    assert range * 256 % WORD == range * 256;
  }

  // One coding step.

  function Coded(iv: Interval, slot: Slot): (r: (seq<Byte>, Interval))
    requires Sound(iv) && Ready(iv) && Codes(slot)
    ensures Sound(r.1) && Ready(r.1)
  {
    NarrowSound(iv, slot);
    Normalise(Narrowed(iv, slot))
  }

  lemma NarrowSound(iv: Interval, slot: Slot)
    requires Sound(iv) && Ready(iv) && Codes(slot)
    ensures Sound(Narrowed(iv, slot))
    ensures iv.range / slot.total > 0
    ensures Narrowed(iv, slot).low + Narrowed(iv, slot).range <= iv.low + iv.range
  {
    var r := iv.range / slot.total;
    assert r >= 1;
    assert r * slot.total <= iv.range;
    assert (slot.under + slot.count) * r <= slot.total * r;
    assert slot.under * r + slot.count * r == (slot.under + slot.count) * r;
    assert slot.count * r >= 1;
  }

  /** A stream that goes on within the new interval lies in the slot's part of the old one. */
  lemma CodedKeeps(iv: Interval, slot: Slot, tail: seq<Byte>)
    requires Sound(iv) && Ready(iv) && Codes(slot)
    requires Within(Coded(iv, slot).1, Window(tail))
    ensures Within(Narrowed(iv, slot), Window(Coded(iv, slot).0 + tail))
  {
    NarrowSound(iv, slot);
    NormaliseKeeps(Narrowed(iv, slot), tail);
  }

  lemma NarrowedWithin(iv: Interval, slot: Slot, w: nat)
    requires Sound(iv) && Ready(iv) && Codes(slot)
    requires Within(Narrowed(iv, slot), w)
    ensures Within(iv, w)
  {
    NarrowSound(iv, slot);
  }

  /** A word inside a slot's part of the interval reads as a code inside the slot. */
  lemma ReadSlot(iv: Interval, slot: Slot, w: nat)
    requires Sound(iv) && Ready(iv) && Codes(slot)
    requires Within(Narrowed(iv, slot), w)
    ensures iv.range / slot.total > 0
    ensures iv.low <= w < iv.low + iv.range
    ensures slot.under <= (w - iv.low) / (iv.range / slot.total) < slot.under + slot.count
  {
    NarrowSound(iv, slot);
    ReadBounds(w - iv.low, iv.range / slot.total, slot.under, slot.count);
  }

  lemma ReadBounds(x: int, r: nat, under: nat, count: nat)
    requires r > 0 && under * r <= x < under * r + r * count
    ensures 0 <= x && under <= x / r < under + count
  {
    assert under * r + r * count == (under + count) * r;
    assert under * r >= 0;
    DivBounds(x, r, under, under + count);
  }

  lemma DivBounds(x: nat, r: nat, a: nat, b: nat)
    requires r > 0 && a * r <= x < b * r
    ensures a <= x / r < b
  {
    var q := x / r;
    assert x == q * r + x % r;
    assert q < a ==> (q + 1) * r <= a * r;
    assert q >= b ==> b * r <= q * r;
  }

  // The end of a stream.

  /** How many bytes it takes to say low when zeros follow. */
  function FlushLength(low: nat): nat {
    if low == 0 then 0
    else if low % 0x100_0000 == 0 then 1
    else if low % 0x1_0000 == 0 then 2
    else if low % 0x100 == 0 then 3
    else 4
  }

  lemma FlushStep(low: nat)
    requires 0 < low < WORD
    ensures FlushLength(low) == 1 + FlushLength(low * 256 % WORD)
  {
    ShiftLow(low);
    var rest := low % TOP;
    ModIs(rest, BOTTOM, low / BOTTOM - low / TOP * 256, low % BOTTOM);
    ModIs(rest, 256, low / 256 - low / TOP * BOTTOM, low % 256);
    ModIs(rest * 256, TOP, rest / BOTTOM, 256 * (low % BOTTOM));
    ModIs(rest * 256, BOTTOM, rest / 256, 256 * (low % 256));
    ModIs(rest * 256, 256, rest, 0);
  }

  /** ENET_RANGE_CODER_FLUSH: the bytes of low up to its trailing zeros. */
  function Flush(low: nat): (r: seq<Byte>)
    requires low < WORD
    ensures |r| == FlushLength(low)
    decreases FlushLength(low)
  {
    if low == 0 then [] else
      FlushStep(low);
      [low / TOP] + Flush(low * 256 % WORD)
  }

  lemma {:induction false} FlushWindow(low: nat)
    requires low < WORD
    ensures Window(Flush(low)) == low
    decreases FlushLength(low)
  {
    if low != 0 {
      var s := Flush(low);
      FlushStep(low);
      FlushWindow(low * 256 % WORD);
      assert Drop(s, 1) == Flush(low * 256 % WORD);
      WindowShift(s);
      ShiftLow(low);
    }
  }

  /** The decoder's word and its low end stay equal once the stream has run into its trailing zeros. */
  lemma {:induction false} NormaliseAtEnd(iv: Interval, s: seq<Byte>)
    requires Sound(iv) && Window(s) == iv.low && |s| <= 4
    ensures Window(Drop(s, |Normalise(iv).0|)) == Normalise(iv).1.low
    decreases Slack(iv)
  {
    if Ready(iv) {
      assert Drop(s, 0) == s;
    } else {
      ShiftSound(iv);
      WindowShift(s);
      NormaliseAtEnd(Shifted(iv), Drop(s, 1));
      assert Drop(Drop(s, 1), |Normalise(Shifted(iv)).0|) == Drop(s, |Normalise(iv).0|);
    }
  }
}
