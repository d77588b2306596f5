/** The adaptive order-2 model of compress.c on values: every context is named by the bytes that lead to it. */
module PpmModel {
  import opened Arithmetic
  import opened Bytes
  import opened Counting
  import opened RangeArithmetic

  const SYMBOL_DELTA := 3
  const SYMBOL_MINIMUM := 1
  const ESCAPE_MINIMUM := 1
  const SUBCONTEXT_ORDER := 2
  const SUBCONTEXT_SYMBOL_DELTA := 2
  const SUBCONTEXT_ESCAPE_DELTA := 5
  const POOL := 4096

  type Path = seq<Byte>

  datatype Context = Context(counts: Counts, escapes: nat, total: nat)

  type Contexts = map<Path, Context>

  function Fresh(): Context { Context(NoCounts(), 0, 0) }

  function Root(): Context { Context(NoCounts(), ESCAPE_MINIMUM, ESCAPE_MINIMUM + 256 * SYMBOL_MINIMUM) }

  function Delta(p: Path): nat { if p == [] then SYMBOL_DELTA else SUBCONTEXT_SYMBOL_DELTA }

  function Minimum(p: Path): nat { if p == [] then SYMBOL_MINIMUM else 0 }

  /** count is the one coded, before it grows; total the new one. */
  predicate Crowded(p: Path, count: nat, total: nat) {
    count > 0xFF - 2 * Delta(p) + Minimum(p) || total > BOTTOM - 0x100
  }

  function Rescaled(p: Path, c: Context): Context {
    var counts, escapes := Halved(c.counts), Half(c.escapes);
    Context(counts, escapes, Sum(counts, 0, 256) + escapes + 256 * Minimum(p))
  }

  function Grown(p: Path, c: Context, v: Byte): Context {
    var escaped := if p != [] && c.counts[v] == 0 then SUBCONTEXT_ESCAPE_DELTA else 0;
    Context(c.counts[v := c.counts[v] + Delta(p)], c.escapes + escaped, c.total + escaped + Delta(p))
  }

  function Bumped(p: Path, c: Context, v: Byte): Context {
    var d := Grown(p, c, v);
    if Crowded(p, c.counts[v] + Minimum(p), d.total) then Rescaled(p, d) else d
  }

  /** What one byte teaches a context, in numbers: the root counts in threes, the others in twos, with five more for an escape
      that was needed; where the count coded or the total has come too far, everything is halved, rounding up. */
  lemma BumpedByNumbers(p: Path, c: Context, v: Byte)
    ensures var delta, escape := if p == [] then 3 else 2, if p != [] && c.counts[v] == 0 then 5 else 0;
      var counts := c.counts[v := c.counts[v] + delta];
      var crowded := (if p == [] then c.counts[v] > 249 else c.counts[v] > 251) || c.total + escape + delta > 65280;
      && (!crowded ==> Bumped(p, c, v) == Context(counts, c.escapes + escape, c.total + escape + delta))
      && (crowded ==>
           && Bumped(p, c, v).escapes == (c.escapes + escape + 1) / 2
           && Bumped(p, c, v).total == Sum(Bumped(p, c, v).counts, 0, 256) + (c.escapes + escape + 1) / 2 + (if p == [] then 256 else 0)
           && forall k :: 0 <= k < 256 ==> Bumped(p, c, v).counts[k] == (counts[k] + 1) / 2)
  {
    hide Sum;
  }

  ghost predicate Balanced(p: Path, c: Context) {
    c.total == c.escapes + Sum(c.counts, 0, 256) + 256 * Minimum(p)
  }

  ghost predicate GoodContext(p: Path, c: Context) {
    && (forall k :: 0 <= k < 256 ==> c.counts[k] <= 0xFF - Delta(p))
    && Balanced(p, c)
    && c.total <= BOTTOM - 0x100
    && (if p == [] then c.escapes == 1 else (c.escapes == 0 <==> Sum(c.counts, 0, 256) == 0))
  }

  lemma FreshIsGood(p: Path)
    ensures p != [] ==> GoodContext(p, Fresh())
    ensures GoodContext([], Root())
  {
    SumZero(NoCounts(), 0, 256);
  }

  lemma GrowsWithin(p: Path, c: Context, v: Byte)
    requires GoodContext(p, c)
    ensures Balanced(p, Grown(p, c, v)) && Grown(p, c, v).total < BOTTOM
    ensures forall k :: 0 <= k < 256 ==> Grown(p, c, v).counts[k] <= 0xFF
    ensures Sum(Grown(p, c, v).counts, 0, 256) == Sum(c.counts, 0, 256) + Delta(p)
  {
    SumUpdate(c.counts, v, c.counts[v] + Delta(p), 0, 256);
    assert Grown(p, c, v).counts == c.counts[v := c.counts[v] + Delta(p)];
  }

  lemma RescaledIsGood(p: Path, c: Context)
    requires Balanced(p, c) && c.total < BOTTOM
    requires forall k :: 0 <= k < 256 ==> c.counts[k] <= 0xFF
    requires if p == [] then c.escapes == 1 else c.escapes > 0 && Sum(c.counts, 0, 256) > 0
    ensures GoodContext(p, Rescaled(p, c))
  {
    SumHalved(c.counts, 0, 256);
  }

  lemma BumpedIsGood(p: Path, c: Context, v: Byte)
    requires GoodContext(p, c)
    ensures GoodContext(p, Bumped(p, c, v))
  {
    hide Sum, Rescaled;
    var d := Grown(p, c, v);
    GrowsWithin(p, c, v);
    if p != [] && c.escapes == 0 { SumZero(c.counts, 0, 256); }
    assert if p == [] then d.escapes == 1 else d.escapes > 0 && Sum(d.counts, 0, 256) > 0;
    if Crowded(p, c.counts[v] + Minimum(p), d.total) {
      RescaledIsGood(p, d);
    } else {
      assert d.counts[v] <= 0xFF - Delta(p);
    }
  }

  /** Exactly v becomes known. */
  lemma BumpedKnows(p: Path, c: Context, v: Byte)
    ensures forall k :: 0 <= k < 256 ==> (Bumped(p, c, v).counts[k] > 0 <==> k == v || c.counts[k] > 0)
  {
  }

  // Contexts as a whole.

  ghost predicate GoodPath(m: Contexts, p: Path)
    requires p in m
  {
    && |p| <= SUBCONTEXT_ORDER + 1
    && GoodContext(p, m[p])
    && (p != [] ==> p[1..] in m && p[..|p| - 1] in m && m[p[..|p| - 1]].counts[p[|p| - 1]] > 0)
    && (|p| == SUBCONTEXT_ORDER + 1 ==> m[p] == Fresh())
  }

  /** A value known to p has its own symbol. */
  ghost predicate Named(m: Contexts, p: Path, v: Byte)
    requires p in m
  {
    m[p].counts[v] > 0 ==> p + [v] in m
  }

  ghost predicate Good(m: Contexts) {
    && [] in m
    && (forall p {:trigger GoodPath(m, p)} :: p in m ==> GoodPath(m, p))
    && (forall p, v: Byte {:trigger Named(m, p, v)} :: p in m ==> Named(m, p, v))
  }

  function Touched(m: Contexts, p: Path, v: Byte): Contexts
    requires p in m
  {
    var m' := m[p := Bumped(p, m[p], v)];
    if p + [v] in m then m' else m'[p + [v] := Fresh()]
  }

  /** The contexts from p to the root, in the order they are tried. */
  predicate Chain(m: Contexts, p: Path)
    decreases |p|
  {
    p in m && (p == [] || Chain(m, p[1..]))
  }

  /** What one byte teaches: every context from p to the one that knew v. */
  function Learnt(m: Contexts, p: Path, v: Byte): Contexts
    requires Chain(m, p)
    ensures m.Keys <= Learnt(m, p, v).Keys
    decreases |p|
  {
    if p == [] || m[p].counts[v] > 0 then Touched(m, p, v) else Touched(Learnt(m, p[1..], v), p, v)
  }

  lemma {:induction false} GoodChain(m: Contexts, p: Path)
    requires Good(m) && p in m
    ensures Chain(m, p) && |p| <= 3
    decreases |p|
  {
    assert GoodPath(m, p);
    if p != [] { GoodChain(m, p[1..]); }
  }

  lemma TouchedPath(m: Contexts, p: Path, v: Byte, r: Path)
    requires Good(m) && p in m && |p| <= SUBCONTEXT_ORDER && r in m
    ensures GoodPath(Touched(m, p, v), r)
  {
    hide Bumped, GoodContext;
    assert GoodPath(m, r);
    if r == p { BumpedIsGood(p, m[p], v); }
    BumpedKnows(p, m[p], v);
  }

  lemma TouchedNew(m: Contexts, p: Path, v: Byte)
    requires Good(m) && p in m && |p| <= SUBCONTEXT_ORDER && p + [v] !in m
    requires p != [] ==> p[1..] + [v] in m
    ensures GoodPath(Touched(m, p, v), p + [v])
  {
    var q := p + [v];
    BumpedKnows(p, m[p], v);
    FreshIsGood(q);
    assert q[..|q| - 1] == p;
    assert q[1..] == if p == [] then [] else p[1..] + [v];
  }

  lemma TouchedNamed(m: Contexts, p: Path, v: Byte, r: Path, w: Byte)
    requires Good(m) && p in m && r in Touched(m, p, v)
    ensures Named(Touched(m, p, v), r, w)
  {
    BumpedKnows(p, m[p], v);
    if r in m { assert Named(m, r, w); }
  }

  lemma TouchedIsGood(m: Contexts, p: Path, v: Byte)
    requires Good(m) && p in m && |p| <= SUBCONTEXT_ORDER
    requires p != [] ==> p[1..] + [v] in m
    ensures Good(Touched(m, p, v)) && p + [v] in Touched(m, p, v)
  {
    var m' := Touched(m, p, v);
    forall r | r in m' ensures GoodPath(m', r) {
      if r in m { TouchedPath(m, p, v, r); } else { TouchedNew(m, p, v); }
    }
    forall r, w: Byte | r in m' ensures Named(m', r, w) {
      TouchedNamed(m, p, v, r, w);
    }
  }

  /** Learning a byte keeps every count, total and escape in range and every symbol in place. */
  lemma {:induction false} LearntIsGood(m: Contexts, p: Path, v: Byte)
    requires Good(m) && Chain(m, p) && |p| <= SUBCONTEXT_ORDER
    ensures Good(Learnt(m, p, v)) && p + [v] in Learnt(m, p, v)
    ensures p != [] ==> p[1..] + [v] in Learnt(m, p, v)
    ensures |Learnt(m, p, v)| <= |m| + |p| + 1
    decreases |p|
  {
    if p == [] {
      TouchedIsGood(m, p, v);
    } else if m[p].counts[v] > 0 {
      assert Named(m, p, v) && GoodPath(m, p + [v]);
      assert (p + [v])[1..] == p[1..] + [v];
      TouchedIsGood(m, p, v);
    } else {
      LearntIsGood(m, p[1..], v);
      TouchedIsGood(Learnt(m, p[1..], v), p, v);
    }
  }

  // Contexts of different paths can be touched in any order.

  lemma TouchedCommute(m: Contexts, p: Path, q: Path, v: Byte)
    requires p in m && q in m && p != q
    ensures Touched(Touched(m, p, v), q, v) == Touched(Touched(m, q, v), p, v)
  {
    var a, b := Touched(Touched(m, p, v), q, v), Touched(Touched(m, q, v), p, v);
    assert p + [v] != q + [v] by {
      assert p == (p + [v])[..|p|] && q == (q + [v])[..|q|];
    }
    assert a.Keys == b.Keys;
    assert forall r :: r in a ==> a[r] == b[r];
  }

  /** Touching a longer context first changes neither what is coded below it nor what is learnt there. */
  lemma {:induction false} LearntAfter(m: Contexts, q: Path, p: Path, v: Byte)
    requires Chain(m, p) && q in m && |q| > |p|
    ensures Chain(Touched(m, q, v), p)
    ensures Slots(Touched(m, q, v), p, v) == Slots(m, p, v)
    ensures Learnt(Touched(m, q, v), p, v) == Touched(Learnt(m, p, v), q, v)
    decreases |p|
  {
    var m' := Touched(m, q, v);
    assert m'[p] == m[p];
    if p != [] { LearntAfter(m, q, p[1..], v); }
    if p == [] || m[p].counts[v] > 0 {
      TouchedCommute(m, q, p, v);
    } else {
      TouchedCommute(Learnt(m, p[1..], v), q, p, v);
    }
  }

  /** The context, on the way from p to the root, that codes v itself. */
  function Finder(m: Contexts, p: Path, v: Byte): (q: Path)
    requires Chain(m, p)
    ensures q in m && |q| <= |p| && q == p[|p| - |q|..]
    decreases |p|
  {
    if p == [] || m[p].counts[v] > 0 then p else Finder(m, p[1..], v)
  }

  /** patchContexts: the contexts from p down to, but without, q. */
  function Patched(m: Contexts, p: Path, q: Path, v: Byte): Contexts
    requires Chain(m, p)
    decreases |p|
  {
    if |p| <= |q| then m else
      ChainTouched(m, p, p, v);
      Patched(Touched(m, p, v), p[1..], q, v)
  }

  lemma {:induction false} ChainTouched(m: Contexts, p: Path, q: Path, v: Byte)
    requires Chain(m, p) && q in m
    ensures Chain(Touched(m, q, v), p)
    decreases |p|
  {
    if p != [] { ChainTouched(m, p[1..], q, v); }
  }

  lemma {:induction false} FinderAfter(m: Contexts, r: Path, p: Path, v: Byte)
    requires Chain(m, p) && r in m && |r| > |p|
    ensures Chain(Touched(m, r, v), p) && Finder(Touched(m, r, v), p, v) == Finder(m, p, v)
    decreases |p|
  {
    hide Bumped;
    ChainTouched(m, p, r, v);
    assert Touched(m, r, v)[p] == m[p];
    if p != [] && m[p].counts[v] == 0 { FinderAfter(m, r, p[1..], v); }
  }

  lemma PatchedStep(m: Contexts, p: Path, q: Path, v: Byte)
    requires Chain(m, p) && |q| < |p| && q in m
    ensures Chain(Touched(m, q, v), p) && Chain(Touched(m, p, v), p[1..])
    ensures Chain(Touched(Touched(m, p, v), q, v), p[1..])
    ensures Patched(Touched(m, q, v), p, q, v) == Patched(Touched(Touched(m, p, v), q, v), p[1..], q, v)
  {
    ChainTouched(m, p, q, v);
    ChainTouched(m, p[1..], p, v);
    ChainTouched(Touched(m, p, v), p[1..], q, v);
    TouchedCommute(m, q, p, v);
  }

  /** The decoder, which touches the context that knew v first, learns what the encoder does. */
  lemma {:induction false} PatchedIsLearnt(m: Contexts, p: Path, q: Path, v: Byte)
    requires Chain(m, p) && q == Finder(m, p, v)
    ensures Chain(Touched(m, q, v), p)
    ensures Patched(Touched(m, q, v), p, q, v) == Learnt(m, p, v)
    decreases |p|
  {
    if p == [] || m[p].counts[v] > 0 {
      ChainTouched(m, p, q, v);
    } else {
      FinderAfter(m, p, p[1..], v);
      PatchedStep(m, p, q, v);
      PatchedIsLearnt(Touched(m, p, v), p[1..], q, v);
      LearntAfter(m, p, p[1..], v);
    }
  }

  // The coder's state between two bytes.

  datatype State = State(contexts: Contexts, predicted: Path)

  function Initial(): State { State(map[[] := Root()], []) }

  function Next(st: State, v: Byte): State
    requires Chain(st.contexts, st.predicted)
  {
    var m, q := Learnt(st.contexts, st.predicted, v), st.predicted + [v];
    if |m| >= POOL - SUBCONTEXT_ORDER then Initial()
    else State(m, if |st.predicted| >= SUBCONTEXT_ORDER then q[1..] else q)
  }

  /** The next byte is foretold by the last two, until the 4096 symbols might not be enough for another byte. */
  lemma NextByNumbers(st: State, v: Byte)
    requires Chain(st.contexts, st.predicted) && |st.predicted| <= 2
    ensures var said, next := st.predicted + [v], Next(st, v);
      && (|Learnt(st.contexts, st.predicted, v)| >= 4094 ==> next == Initial())
      && (|Learnt(st.contexts, st.predicted, v)| < 4094 ==>
           next.contexts == Learnt(st.contexts, st.predicted, v) && next.predicted == if |said| <= 2 then said else said[|said| - 2..])
  {
  }

  ghost predicate GoodState(st: State) {
    && Good(st.contexts) && st.predicted in st.contexts && |st.predicted| <= SUBCONTEXT_ORDER
    && |st.contexts| < POOL - SUBCONTEXT_ORDER
  }

  lemma InitialIsGood()
    ensures GoodState(Initial())
  {
    FreshIsGood([]);
    SumZero(NoCounts(), 0, 256);
    var m := Initial().contexts;
    assert m[[]] == Root();
    assert GoodPath(m, []);
    forall p, v: Byte | p in m ensures Named(m, p, v) {}
  }

  lemma NextIsGood(st: State, v: Byte)
    requires GoodState(st)
    ensures Chain(st.contexts, st.predicted) && GoodState(Next(st, v))
    ensures |Learnt(st.contexts, st.predicted, v)| <= POOL
  {
    GoodChain(st.contexts, st.predicted);
    LearntIsGood(st.contexts, st.predicted, v);
    InitialIsGood();
    assert st.predicted != [] ==> (st.predicted + [v])[1..] == st.predicted[1..] + [v];
  }

  // What is coded for one byte.

  function SlotOf(p: Path, c: Context, v: Byte): Slot {
    Slot(c.escapes + v * Minimum(p) + Sum(c.counts, 0, v), c.counts[v] + Minimum(p), c.total)
  }

  predicate Escapable(c: Context) { 0 < c.escapes < c.total }

  function EscapeSlot(c: Context): Slot { Slot(0, c.escapes, c.total) }

  function EscapeSlots(c: Context): seq<Slot> { if Escapable(c) then [EscapeSlot(c)] else [] }

  function Slots(m: Contexts, p: Path, v: Byte): seq<Slot>
    requires Chain(m, p)
    decreases |p|
  {
    if p == [] || m[p].counts[v] > 0 then [SlotOf(p, m[p], v)]
    else EscapeSlots(m[p]) + Slots(m, p[1..], v)
  }

  ghost predicate AllCode(slots: seq<Slot>) { forall s :: s in slots ==> Codes(s) }

  lemma SlotCodes(p: Path, c: Context, v: Byte)
    requires GoodContext(p, c)
    ensures p == [] || c.counts[v] > 0 ==> Codes(SlotOf(p, c, v))
    ensures Escapable(c) ==> Codes(EscapeSlot(c))
    ensures p != [] && c.counts[v] > 0 ==> Escapable(c)
    ensures p != [] && !Escapable(c) ==> Zero(c.counts, 0, 256) && c.escapes == 0
  {
    SumSplit(c.counts, 0, v, 256);
    SumSplit(c.counts, v, v + 1, 256);
    SumZero(c.counts, 0, 256);
  }

  lemma {:induction false} SlotsCode(m: Contexts, p: Path, v: Byte)
    requires Good(m) && Chain(m, p)
    ensures AllCode(Slots(m, p, v))
    decreases |p|
  {
    assert GoodPath(m, p);
    SlotCodes(p, m[p], v);
    if p != [] { SlotsCode(m, p[1..], v); }
  }

  function CodedAll(iv: Interval, slots: seq<Slot>): (r: (seq<Byte>, Interval))
    requires Sound(iv) && Ready(iv) && AllCode(slots)
    ensures Sound(r.1) && Ready(r.1)
    decreases |slots|
  {
    if slots == [] then ([], iv) else
      var (first, iv') := Coded(iv, slots[0]);
      var (rest, last) := CodedAll(iv', slots[1..]);
      (first + rest, last)
  }

  lemma {:induction false} CodedAllKeeps(iv: Interval, slots: seq<Slot>, tail: seq<Byte>)
    requires Sound(iv) && Ready(iv) && AllCode(slots)
    requires Within(CodedAll(iv, slots).1, Window(tail))
    ensures Within(iv, Window(CodedAll(iv, slots).0 + tail))
    decreases |slots|
  {
    if slots == [] {
      assert CodedAll(iv, slots).0 + tail == tail;
    } else {
      var (first, iv') := Coded(iv, slots[0]);
      var rest := CodedAll(iv', slots[1..]).0;
      CodedAllKeeps(iv', slots[1..], tail);
      CodedKeeps(iv, slots[0], rest + tail);
      NarrowedWithin(iv, slots[0], Window(first + (rest + tail)));
      assert CodedAll(iv, slots).0 + tail == first + (rest + tail);
    }
  }

  // The whole stream.

  ghost predicate Coding(st: State, iv: Interval) { GoodState(st) && Sound(iv) && Ready(iv) }

  function StepSlots(st: State, v: Byte): (r: seq<Slot>)
    requires GoodState(st)
    ensures AllCode(r)
  {
    GoodChain(st.contexts, st.predicted);
    SlotsCode(st.contexts, st.predicted, v);
    Slots(st.contexts, st.predicted, v)
  }

  function Encoded(st: State, iv: Interval, data: seq<Byte>): seq<Byte>
    requires Coding(st, iv)
    decreases |data|
  {
    if data == [] then Flush(iv.low) else
      NextIsGood(st, data[0]);
      var (bytes, iv') := CodedAll(iv, StepSlots(st, data[0]));
      bytes + Encoded(Next(st, data[0]), iv', data[1..])
  }

  function Compressed(data: seq<Byte>): seq<Byte> {
    InitialIsGood();
    Encoded(Initial(), Start, data)
  }

  /** The first byte is one of 257 equally likely codes, after the escape's. */
  lemma FirstByte(v: Byte)
    ensures Window(Compressed([v])) == (v + 1) * 16711935
  {
    hide CodedAll, Coded, Next, StepSlots, Window, Flush, Encoded, Initial, GoodState;
    FirstSlot(v);
    FirstByteCoded(v);
    SlotAlone(Start, Slot(1 + v, 1, 257));
    OneByte(Initial(), Start, v);
    FirstFlushed(v);
  }

  lemma OneByte(st: State, iv: Interval, v: Byte)
    requires Coding(st, iv)
    ensures var (bytes, iv') := CodedAll(iv, StepSlots(st, v)); Encoded(st, iv, [v]) == bytes + Flush(iv'.low)
  {
    hide CodedAll, Next, StepSlots, Flush, GoodState;
    NextIsGood(st, v);
    assert [v][1..] == [];
  }

  lemma FirstSlot(v: Byte)
    ensures GoodState(Initial()) && StepSlots(Initial(), v) == [Slot(1 + v, 1, 257)]
  {
    InitialIsGood();
    SumZero(NoCounts(), 0, v);
    assert Initial().contexts[[]] == Root();
  }

  lemma SlotAlone(iv: Interval, slot: Slot)
    requires Sound(iv) && Ready(iv) && Codes(slot)
    ensures AllCode([slot]) && CodedAll(iv, [slot]) == Coded(iv, slot)
  {
    var (first, iv') := Coded(iv, slot);
    assert [slot][1..] == [] && first + [] == first;
    hide Coded;
  }

  /** Only the last byte's part of the line has one top byte throughout. */
  lemma FirstByteCoded(v: Byte)
    ensures var slot, low := Slot(1 + v, 1, 257), (v + 1) * 16711935;
      Sound(Start) && Ready(Start) && Codes(slot)
      && Coded(Start, slot) == if v < 255 then ([], Interval(low, 16711935)) else ([255], Interval(0xFF_0000, 0xFF00_FF00))
  {
    ModIs(WORD - 1, 257, 16711935, 0);
    var low := (v + 1) * 16711935;
    assert Narrowed(Start, Slot(1 + v, 1, 257)) == Interval(low, 16711935);
    if v < 255 {
      ModIs(low, TOP, v, TOP - (v + 1) * 65281);
      ModIs(low + 16711935, WORD, 0, low + 16711935);
      ModIs(low + 16711935, TOP, v + 1, TOP - (v + 2) * 65281);
      assert Ready(Interval(low, 16711935));
    } else {
      var last := Interval(0xFF_0000, 0xFF00_FF00);
      assert !Ready(Interval(low, 16711935)) && Shifted(Interval(low, 16711935)) == last && low / TOP == 255;
      assert Normalise(last) == ([], last);
      assert [255] + [] == [255 as Byte];
    }
  }

  lemma FirstFlushed(v: Byte)
    ensures var low := (v + 1) * 16711935;
      if v < 255 then Window([] + Flush(low)) == low else Window([255] + Flush(0xFF_0000)) == low
  {
    hide Flush, Window;
    if v < 255 {
      FlushWindow((v + 1) * 16711935);
      assert [] + Flush((v + 1) * 16711935) == Flush((v + 1) * 16711935);
    } else {
      FlushWindow(0xFF_0000);
      WindowAfter(255, Flush(0xFF_0000));
    }
  }

  lemma WindowAfter(b: Byte, s: seq<Byte>)
    ensures Window([b] + s) == b * TOP + Window(s) / 256
  {
  }

  /** The stream so far and what encoding the rest adds make up the whole. */
  ghost predicate Encoding(data: seq<Byte>, done: seq<Byte>, st: State, iv: Interval, rest: seq<Byte>) {
    Coding(st, iv) && Compressed(data) == done + Encoded(st, iv, rest)
  }

  lemma EncodingStarts(data: seq<Byte>)
    ensures Encoding(data, [], Initial(), Start, data)
  {
    InitialIsGood();
    assert [] + Compressed(data) == Compressed(data);
  }

  lemma EncodingStep(data: seq<Byte>, done: seq<Byte>, st: State, iv: Interval, rest: seq<Byte>)
    requires Encoding(data, done, st, iv, rest) && rest != []
    ensures Chain(st.contexts, st.predicted)
    ensures var (bytes, iv') := CodedAll(iv, StepSlots(st, rest[0]));
      && Encoding(data, done + bytes, Next(st, rest[0]), iv', rest[1..])
      && |done + bytes| <= |Compressed(data)|
  {
    hide CodedAll, Next, StepSlots, Compressed, Initial;
    NextIsGood(st, rest[0]);
    var (bytes, iv') := CodedAll(iv, StepSlots(st, rest[0]));
    var more := Encoded(Next(st, rest[0]), iv', rest[1..]);
    assert done + (bytes + more) == (done + bytes) + more;
  }

  /** The bytes still to come always spell a number inside the coder's interval. */
  lemma {:induction false} EncodedWithin(st: State, iv: Interval, data: seq<Byte>)
    requires Coding(st, iv)
    ensures Within(iv, Window(Encoded(st, iv, data)))
    decreases |data|
  {
    if data == [] {
      FlushWindow(iv.low);
    } else {
      NextIsGood(st, data[0]);
      var slots := StepSlots(st, data[0]);
      var iv' := CodedAll(iv, slots).1;
      EncodedWithin(Next(st, data[0]), iv', data[1..]);
      CodedAllKeeps(iv, slots, Encoded(Next(st, data[0]), iv', data[1..]));
    }
  }

  lemma TailAppend(p: Path, v: Byte)
    requires p != []
    ensures (p + [v])[1..] == p[1..] + [v]
  {
  }

  // Coding one byte, context by context.

  ghost predicate ChainGood(m: Contexts, p: Path)
    requires Chain(m, p)
    decreases |p|
  {
    GoodContext(p, m[p]) && (p != [] ==> ChainGood(m, p[1..]))
  }

  lemma {:induction false} ChainGoodAfter(m: Contexts, q: Path, p: Path, v: Byte)
    requires Chain(m, p) && ChainGood(m, p) && q in m && GoodContext(q, m[q])
    ensures Chain(Touched(m, q, v), p) && ChainGood(Touched(m, q, v), p)
    decreases |p|
  {
    ChainTouched(m, p, q, v);
    if p == q { BumpedIsGood(q, m[q], v); }
    if p != [] { ChainGoodAfter(m, q, p[1..], v); }
  }

  lemma {:induction false} ChainGoodSlots(m: Contexts, p: Path, v: Byte)
    requires Chain(m, p) && ChainGood(m, p)
    ensures AllCode(Slots(m, p, v))
    decreases |p|
  {
    SlotCodes(p, m[p], v);
    if p != [] { ChainGoodSlots(m, p[1..], v); }
  }

  lemma {:induction false} GoodChainGood(m: Contexts, p: Path)
    requires Good(m) && Chain(m, p)
    ensures ChainGood(m, p)
    decreases |p|
  {
    assert GoodPath(m, p);
    if p != [] { GoodChainGood(m, p[1..]); }
  }

  datatype Progress = Progress(contexts: Contexts, path: Path, iv: Interval, done: seq<Byte>)

  ghost predicate Coherent(x: Progress) {
    && x.path in x.contexts && GoodContext(x.path, x.contexts[x.path])
    && Chain(x.contexts, x.path) && ChainGood(x.contexts, x.path) && Sound(x.iv) && Ready(x.iv)
  }

  /** What coding v from x on will have written, and with which interval it will end. */
  ghost function Outcome(x: Progress, v: Byte): (seq<Byte>, Interval)
    requires Coherent(x)
  {
    ChainGoodSlots(x.contexts, x.path, v);
    var (bytes, iv) := CodedAll(x.iv, Slots(x.contexts, x.path, v));
    (x.done + bytes, iv)
  }

  ghost predicate SameCourse(x: Progress, y: Progress, v: Byte) {
    && Coherent(x) && Coherent(y)
    && Outcome(x, v) == Outcome(y, v)
    && Learnt(x.contexts, x.path, v) == Learnt(y.contexts, y.path, v)
  }

  predicate Settles(x: Progress, v: Byte)
    requires x.path in x.contexts
  {
    x.path == [] || x.contexts[x.path].counts[v] > 0
  }

  /** What x's first context codes: v itself, or an escape if it can, or nothing. */
  function FirstCoded(x: Progress, v: Byte): (r: (seq<Byte>, Interval))
    requires x.path in x.contexts && Sound(x.iv) && Ready(x.iv) && GoodContext(x.path, x.contexts[x.path])
    ensures Sound(r.1) && Ready(r.1)
  {
    var c := x.contexts[x.path];
    SlotCodes(x.path, c, v);
    if Settles(x, v) then Coded(x.iv, SlotOf(x.path, c, v))
    else if Escapable(c) then Coded(x.iv, EscapeSlot(c)) else ([], x.iv)
  }

  /** x after its first context has passed v on. */
  function Escaped(x: Progress, v: Byte): Progress
    requires x.path in x.contexts && Sound(x.iv) && Ready(x.iv) && GoodContext(x.path, x.contexts[x.path])
    requires !Settles(x, v)
  {
    var (bytes, iv) := FirstCoded(x, v);
    Progress(Touched(x.contexts, x.path, v), x.path[1..], iv, x.done + bytes)
  }

  lemma EscapedCoherent(x: Progress, v: Byte)
    requires Coherent(x) && !Settles(x, v)
    ensures Coherent(Escaped(x, v))
    ensures Slots(x.contexts, x.path, v) == EscapeSlots(x.contexts[x.path]) + Slots(Escaped(x, v).contexts, x.path[1..], v)
    ensures Learnt(x.contexts, x.path, v) == Learnt(Escaped(x, v).contexts, x.path[1..], v)
  {
    ChainGoodAfter(x.contexts, x.path, x.path[1..], v);
    LearntAfter(x.contexts, x.path, x.path[1..], v);
  }

  lemma CodedFirst(iv: Interval, slot: Slot, rest: seq<Slot>)
    requires Sound(iv) && Ready(iv) && AllCode([slot] + rest)
    ensures Codes(slot) && AllCode(rest)
    ensures var (first, iv') := Coded(iv, slot);
      CodedAll(iv, [slot] + rest) == (first + CodedAll(iv', rest).0, CodedAll(iv', rest).1)
  {
    assert ([slot] + rest)[1..] == rest;
    assert slot in [slot] + rest;
    assert forall s :: s in rest ==> s in [slot] + rest;
  }

  /** y is where x's coding of v is after x's first context. */
  lemma EscapedOutcome(x: Progress, v: Byte, y: Progress)
    requires Coherent(x) && !Settles(x, v) && Coherent(y)
    requires y.iv == FirstCoded(x, v).1 && y.done == x.done + FirstCoded(x, v).0
    requires Slots(x.contexts, x.path, v) == EscapeSlots(x.contexts[x.path]) + Slots(y.contexts, y.path, v)
    ensures Outcome(x, v) == Outcome(y, v)
  {
    var c, rest := x.contexts[x.path], Slots(y.contexts, y.path, v);
    ChainGoodSlots(x.contexts, x.path, v);
    ChainGoodSlots(y.contexts, y.path, v);
    if Escapable(c) {
      CodedFirst(x.iv, EscapeSlot(c), rest);
      assert x.done + (Coded(x.iv, EscapeSlot(c)).0 + CodedAll(y.iv, rest).0) == y.done + CodedAll(y.iv, rest).0;
    } else {
      assert [] + rest == rest;
      assert x.done + [] == x.done;
    }
  }

  lemma EscapedCourse(x: Progress, v: Byte)
    requires Coherent(x) && !Settles(x, v)
    ensures SameCourse(x, Escaped(x, v), v)
  {
    EscapedCoherent(x, v);
    EscapedOutcome(x, v, Escaped(x, v));
  }

  lemma FoundCourse(x: Progress, v: Byte)
    requires Coherent(x) && Settles(x, v)
    ensures Outcome(x, v) == (x.done + FirstCoded(x, v).0, FirstCoded(x, v).1)
    ensures Learnt(x.contexts, x.path, v) == Touched(x.contexts, x.path, v)
  {
    var slot := SlotOf(x.path, x.contexts[x.path], v);
    SlotCodes(x.path, x.contexts[x.path], v);
    ChainGoodSlots(x.contexts, x.path, v);
    assert Slots(x.contexts, x.path, v) == [slot];
    CodedOne(x.iv, slot);
  }

  lemma CodedOne(iv: Interval, slot: Slot)
    requires Sound(iv) && Ready(iv) && Codes(slot)
    ensures CodedAll(iv, [slot]) == Coded(iv, slot)
  {
    var (bytes, iv') := Coded(iv, slot);
    assert CodedAll(iv', []) == ([], iv');
    assert bytes + [] == bytes;
  }

  lemma StartCourse(st: State, iv: Interval, v: Byte)
    requires Coding(st, iv)
    ensures Chain(st.contexts, st.predicted)
    ensures var x := Progress(st.contexts, st.predicted, iv, []);
      SameCourse(x, x, v) && Coherent(x) && Outcome(x, v) == CodedAll(iv, StepSlots(st, v))
  {
    GoodChain(st.contexts, st.predicted);
    GoodChainGood(st.contexts, st.predicted);
    assert [] + CodedAll(iv, StepSlots(st, v)).0 == CodedAll(iv, StepSlots(st, v)).0;
  }

  lemma StepCourse(x0: Progress, x: Progress, v: Byte)
    requires SameCourse(x0, x, v) && Coherent(x) && Coherent(x0)
    ensures |Outcome(x0, v).0| >= |x.done| + |FirstCoded(x, v).0|
    ensures !Settles(x, v) ==> SameCourse(x0, Escaped(x, v), v) && Coherent(Escaped(x, v))
    ensures Settles(x, v) ==>
      && Outcome(x0, v) == (x.done + FirstCoded(x, v).0, FirstCoded(x, v).1)
      && Learnt(x0.contexts, x0.path, v) == Touched(x.contexts, x.path, v)
  {
    if Settles(x, v) { FoundCourse(x, v); } else { EscapedCourse(x, v); }
  }

  // The decoder's way through the same contexts, which it leaves as they are until it has found v.

  function Passed(x: Progress, v: Byte): Progress
    requires x.path in x.contexts && Sound(x.iv) && Ready(x.iv) && GoodContext(x.path, x.contexts[x.path])
    requires !Settles(x, v)
  {
    var (bytes, iv) := FirstCoded(x, v);
    Progress(x.contexts, x.path[1..], iv, x.done + bytes)
  }

  lemma PassedCourse(x: Progress, v: Byte)
    requires Coherent(x) && !Settles(x, v)
    ensures Coherent(Passed(x, v)) && Outcome(Passed(x, v), v) == Outcome(x, v)
  {
    hide FirstCoded, Outcome, GoodContext;
    assert Chain(x.contexts, x.path[1..]) && ChainGood(x.contexts, x.path[1..]);
    assert Slots(x.contexts, x.path, v) == EscapeSlots(x.contexts[x.path]) + Slots(x.contexts, x.path[1..], v);
    EscapedOutcome(x, v, Passed(x, v));
  }

  /** The stream s codes v from x on and goes on with tail. */
  ghost predicate Ahead(x: Progress, v: Byte, s: seq<Byte>, tail: seq<Byte>) {
    && Coherent(x)
    && s == Outcome(x, v).0 + tail && |x.done| <= |Outcome(x, v).0|
    && Within(Outcome(x, v).1, Window(tail))
  }

  lemma AheadWithin(x: Progress, v: Byte, s: seq<Byte>, tail: seq<Byte>)
    requires Ahead(x, v, s, tail)
    ensures Within(x.iv, Window(s[|x.done|..]))
  {
    ChainGoodSlots(x.contexts, x.path, v);
    var slots := Slots(x.contexts, x.path, v);
    CodedAllKeeps(x.iv, slots, tail);
    assert s[|x.done|..] == CodedAll(x.iv, slots).0 + tail;
  }

  /** What x's first context has coded is next in the stream, and what follows lies in the new interval. */
  lemma AheadFirst(x: Progress, v: Byte, s: seq<Byte>, tail: seq<Byte>)
    requires Ahead(x, v, s, tail)
    ensures var (bytes, iv) := FirstCoded(x, v); var at := |x.done| + |bytes|;
      && at <= |s| && s[|x.done|..] == bytes + s[at..] && Within(iv, Window(s[at..]))
      && (Settles(x, v) ==> s[at..] == tail && Outcome(x, v).1 == iv)
      && (!Settles(x, v) ==> Ahead(Passed(x, v), v, s, tail))
  {
    var (bytes, iv) := FirstCoded(x, v);
    if Settles(x, v) {
      FoundCourse(x, v);
      assert s[|x.done|..] == bytes + tail;
    } else {
      PassedCourse(x, v);
      AheadPassed(x, v, s, tail);
      AheadWithin(Passed(x, v), v, s, tail);
    }
  }

  lemma AheadPassed(x: Progress, v: Byte, s: seq<Byte>, tail: seq<Byte>)
    requires Ahead(x, v, s, tail) && !Settles(x, v) && Coherent(Passed(x, v))
    requires Outcome(Passed(x, v), v) == Outcome(x, v)
    ensures Ahead(Passed(x, v), v, s, tail)
    ensures |Passed(x, v).done| <= |s| && s[|x.done|..] == FirstCoded(x, v).0 + s[|Passed(x, v).done|..]
  {
    hide FirstCoded, CodedAll, Slots, GoodContext, ChainGood, Sound, Ready;
    var y := Passed(x, v);
    OutcomeForm(y, v);
    var rest := Outcome(y, v).0[|y.done|..];
    assert Outcome(y, v).0 == x.done + FirstCoded(x, v).0 + rest;
    Split(x.done, FirstCoded(x, v).0, rest, tail);
  }

  lemma OutcomeForm(x: Progress, v: Byte)
    requires Coherent(x)
    ensures x.done <= Outcome(x, v).0
  {
    ChainGoodSlots(x.contexts, x.path, v);
  }

  lemma Split(a: seq<Byte>, b: seq<Byte>, c: seq<Byte>, d: seq<Byte>)
    ensures (a + b + c + d)[|a + b|..] == c + d && (a + b + c + d)[|a|..] == b + (c + d)
  {
  }

  /** The code read in x's first context tells an escape from v. */
  lemma AheadCode(x: Progress, v: Byte, s: seq<Byte>, tail: seq<Byte>)
    requires Ahead(x, v, s, tail) && (Settles(x, v) || Escapable(x.contexts[x.path]))
    ensures var c, w := x.contexts[x.path], Window(s[|x.done|..]);
      && 0 < c.total < BOTTOM && x.iv.range / c.total > 0 && x.iv.low <= w < WORD
      && var code := (w - x.iv.low) / (x.iv.range / c.total);
      && code < BOTTOM
      && (if Settles(x, v) then SlotOf(x.path, c, v).under <= code < SlotOf(x.path, c, v).under + SlotOf(x.path, c, v).count
          else code < c.escapes)
  {
    hide Outcome, Window, Shifted, SameTop;
    var c, w := x.contexts[x.path], Window(s[|x.done|..]);
    SlotCodes(x.path, c, v);
    AheadFirst(x, v, s, tail);
    var slot := if Settles(x, v) then SlotOf(x.path, c, v) else EscapeSlot(c);
    CodedKeeps(x.iv, slot, s[|x.done| + |FirstCoded(x, v).0|..]);
    ReadSlot(x.iv, slot, w);
  }

  /** The stream after the first byte of data. */
  function AheadTail(st: State, iv: Interval, data: seq<Byte>): seq<Byte>
    requires Coding(st, iv) && data != []
  {
    NextIsGood(st, data[0]);
    Encoded(Next(st, data[0]), CodedAll(iv, StepSlots(st, data[0])).1, data[1..])
  }

  lemma AheadStart(st: State, iv: Interval, data: seq<Byte>)
    requires Coding(st, iv) && data != []
    ensures Chain(st.contexts, st.predicted) && ChainGood(st.contexts, st.predicted)
    ensures var x, v := Progress(st.contexts, st.predicted, iv, []), data[0];
      && Coherent(x) && Outcome(x, v) == CodedAll(iv, StepSlots(st, v)) && Coding(Next(st, v), Outcome(x, v).1)
      && Ahead(x, v, Encoded(st, iv, data), AheadTail(st, iv, data))
      && Encoded(st, iv, data) == CodedAll(iv, StepSlots(st, v)).0 + AheadTail(st, iv, data)
  {
    hide Outcome, Next, Window, StepSlots, CodedAll, GoodContext;
    var v := data[0];
    StartCourse(st, iv, v);
    NextIsGood(st, v);
    EncodedWithin(Next(st, v), CodedAll(iv, StepSlots(st, v)).1, data[1..]);
  }
}
