module Compression {
  import opened Bytes
  import opened Counting
  import opened RangeArithmetic
  import opened PpmModel
  import opened PoolRelation
  import opened SymbolTree
  import opened RangeCoding

  /** Either all the bytes are written behind pos, or they do not fit. */
  ghost predicate Writes(before: seq<Byte>, pos: nat, bytes: seq<Byte>, after: seq<Byte>, ok: bool, pos': nat) {
    && |after| == |before| && pos <= |before|
    && (ok <==> pos + |bytes| <= |before|)
    && (ok ==> pos' == pos + |bytes| && after[..pos'] == before[..pos] + bytes)
  }

  lemma WritesMore(a: seq<Byte>, pos: nat, x: seq<Byte>, b: seq<Byte>, pos1: nat,
                   y: seq<Byte>, c: seq<Byte>, ok: bool, pos2: nat)
    requires Writes(a, pos, x, b, true, pos1) && Writes(b, pos1, y, c, ok, pos2)
    ensures Writes(a, pos, x + y, c, ok, pos2)
  {
    if ok { assert c[..pos2] == (a[..pos] + x) + y == a[..pos] + (x + y); }
  }

  /** ENET_RANGE_CODER_OUTPUT */
  method Output(b: Byte, out: array<Byte>, pos: nat) returns (ok: bool, pos': nat)
    requires pos <= out.Length
    modifies out
    ensures Writes(old(out[..]), pos, [b], out[..], ok, pos')
  {
    if pos >= out.Length { return false, pos; }
    out[pos] := b;
    return true, pos + 1;
  }

  /** The normalising loop of ENET_RANGE_CODER_ENCODE; not ok when the output is full. */
  method EncodeNormalise(iv: Interval, out: array<Byte>, pos: nat) returns (ok: bool, iv': Interval, pos': nat)
    requires Sound(iv) && pos <= out.Length
    modifies out
    ensures Writes(old(out[..]), pos, Normalise(iv).0, out[..], ok, pos')
    ensures ok ==> iv' == Normalise(iv).1
  {
    hide Shifted, SameTop;
    ok, iv', pos' := true, iv, pos;
    ghost var done: seq<Byte> := [];
    while !Ready(iv')
      invariant Sound(iv') && ok && Writes(old(out[..]), pos, done, out[..], true, pos')
      invariant Normalise(iv).1 == Normalise(iv').1 && Normalise(iv).0 == done + Normalise(iv').0
      decreases Slack(iv')
    {
      ghost var written, p, top := out[..], pos', iv'.low / TOP;
      ShiftSound(iv');
      ok, pos' := Output(iv'.low / TOP, out, pos');
      WritesMore(old(out[..]), pos, done, written, p, [top], out[..], ok, pos');
      iv' := Shifted(iv');
      done := done + [top];
      assert Normalise(iv).0 == done + Normalise(iv').0;
      if !ok { return; }
    }
  }

  /** ENET_RANGE_CODER_ENCODE */
  method RangeEncode(iv: Interval, under: nat, count: nat, total: nat, out: array<Byte>, pos: nat)
    returns (ok: bool, iv': Interval, pos': nat)
    requires Sound(iv) && Ready(iv) && Codes(Slot(under, count, total)) && pos <= out.Length
    modifies out
    ensures Writes(old(out[..]), pos, Coded(iv, Slot(under, count, total)).0, out[..], ok, pos')
    ensures ok ==> iv' == Coded(iv, Slot(under, count, total)).1
  {
    NarrowSound(iv, Slot(under, count, total));
    var range := iv.range / total;
    var low := iv.low + under * range;
    range := range * count;
    ok, iv', pos' := EncodeNormalise(Interval(low, range), out, pos);
  }

  /** ENET_RANGE_CODER_FLUSH */
  method EncodeFlush(start: nat, out: array<Byte>, pos: nat) returns (ok: bool, pos': nat)
    requires start < WORD && pos <= out.Length
    modifies out
    ensures Writes(old(out[..]), pos, Flush(start), out[..], ok, pos')
  {
    var low: nat := start;
    ok, pos' := true, pos;
    ghost var done: seq<Byte> := [];
    while low != 0
      invariant low < WORD && ok && Writes(old(out[..]), pos, done, out[..], true, pos')
      invariant Flush(start) == done + Flush(low)
      decreases FlushLength(low)
    {
      ghost var written, p := out[..], pos';
      FlushStep(low);
      ok, pos' := Output(low / TOP, out, pos');
      WritesMore(old(out[..]), pos, done, written, p, [low / TOP], out[..], ok, pos');
      done := done + [low / TOP];
      low := low * 256 % WORD;
      assert Flush(start) == done + Flush(low);
      if !ok { return; }
    }
  }

  /** The slot whose parent link is still to be written; negative stands for the caller's predicted. */
  function Holes(parent: int): set<int> { if parent < 0 then {} else {parent} }

  /** parent is to link to the symbol of v in the context p. */
  ghost predicate Awaits(paths: seq<Path>, parent: int, p: Path, v: Byte) {
    parent >= 0 ==> 1 <= parent < |paths| && paths[parent] != [] && paths[parent][1..] == p + [v]
  }

  /** * parent = symbol */
  method LinkParent(rc: RangeCoder, parent: int, predicted: nat, symbol: nat, ghost holes: set<int>) returns (predicted': nat)
    requires rc.Valid(holes) && symbol < rc.nextSymbol
    requires parent >= 0 ==> 1 <= parent < rc.nextSymbol && rc.paths[parent] != []
    requires parent >= 0 ==> rc.paths[symbol] == rc.paths[parent][1..] && parent != symbol
    modifies rc.symbols
    ensures rc.Valid(holes - Holes(parent))
    ensures rc.symbols[symbol].parent == old(rc.symbols[symbol].parent)
    ensures predicted' == if parent < 0 then symbol else predicted
  {
    predicted' := predicted;
    if parent < 0 {
      predicted' := symbol;
      assert holes - {} == holes;
    } else {
      rc.SetParent(parent, symbol, holes);
    }
  }

  /** ENET_CONTEXT_ENCODE, and the write through the parent pointer that follows it. */
  method InsertSymbol(rc: RangeCoder, c: nat, v: Byte, update: nat, minimum: nat, parent: int, predicted: nat)
    returns (symbol: nat, under: nat, count: nat, predicted': nat)
    requires rc.Valid(Holes(parent)) && c < rc.nextSymbol < POOL
    requires update == Delta(rc.paths[c]) && minimum == Minimum(rc.paths[c])
    requires rc.paths[c] in rc.contexts && GoodContext(rc.paths[c], rc.contexts[rc.paths[c]])
    requires Awaits(rc.paths, parent, rc.paths[c], v)
    modifies rc, rc.symbols
    ensures var b := old(rc.contexts[rc.paths[c]]);
      && rc.Valid(if old(rc.paths[c]) == [] || b.counts[v] > 0 then {} else {symbol})
      && Inserts(old(rc.paths), old(rc.contexts), c, v, b.counts[v] > 0, rc.paths, rc.contexts, symbol)
      && under == v * minimum + Sum(b.counts, 0, v) && count == minimum + b.counts[v]
    ensures predicted' == if parent < 0 then symbol else predicted
  {
    hide Represents, GoodContext, Inserted;
    ghost var p, known := rc.paths[c], rc.contexts[rc.paths[c]].counts[v] > 0;
    symbol, under, count := rc.ContextEncode(c, v, update, minimum, Holes(parent));
    ghost var holes := if known then Holes(parent) else Holes(parent) + {symbol};
    assert parent != symbol;
    assert holes - Holes(parent) == if known then {} else {symbol};
    predicted' := LinkParent(rc, parent, predicted, symbol, holes);
    if !known && p == [] { RootSymbol(rc.symbols[..], rc.g, rc.paths, rc.contexts, symbol, v); }
  }

  /** The range coder's share of one context: v's slot, or the escape if the context has one to give. */
  method EncodeSlot(iv: Interval, under: nat, count: nat, escapes: nat, total: nat, out: array<Byte>, pos: nat,
                    ghost x: Progress, ghost v: Byte) returns (ok: bool, iv': Interval, pos': nat)
    requires pos <= out.Length && iv == x.iv && Sound(iv) && Ready(iv)
    requires x.path in x.contexts && GoodContext(x.path, x.contexts[x.path])
    requires var b := x.contexts[x.path];
      && escapes == b.escapes && total == b.total
      && under == v * Minimum(x.path) + Sum(b.counts, 0, v) && count == Minimum(x.path) + b.counts[v]
    modifies out
    ensures Writes(old(out[..]), pos, FirstCoded(x, v).0, out[..], ok, pos')
    ensures ok ==> iv' == FirstCoded(x, v).1
  {
    hide Shifted, SameTop, Codes, Narrowed;
    SlotCodes(x.path, x.contexts[x.path], v);
    if count > 0 {
      ok, iv', pos' := RangeEncode(iv, escapes + under, count, total, out, pos);
    } else if escapes > 0 && escapes < total {
      ok, iv', pos' := RangeEncode(iv, 0, escapes, total, out, pos);
    } else {
      ok, iv', pos' := true, iv, pos;
    }
  }

  /** One context's part in coding v: the loop body of enet_range_coder_compress, and its tail for the root. */
  method EncodeInContext(rc: RangeCoder, sub: nat, v: Byte, update: nat, minimum: nat, parent: int, predicted: nat,
                         iv: Interval, out: array<Byte>, pos: nat, ghost x: Progress)
    returns (ok: bool, count: nat, symbol: nat, predicted': nat, iv': Interval, pos': nat)
    requires rc.Valid(Holes(parent)) && sub < rc.nextSymbol < POOL
    requires update == Delta(rc.paths[sub]) && minimum == Minimum(rc.paths[sub])
    requires Coherent(x) && x.contexts == rc.contexts && x.path == rc.paths[sub] && x.iv == iv
    requires Awaits(rc.paths, parent, x.path, v) && pos <= out.Length
    modifies rc, rc.symbols, out
    ensures Writes(old(out[..]), pos, FirstCoded(x, v).0, out[..], ok, pos')
    ensures ok ==> iv' == FirstCoded(x, v).1 && (count > 0 <==> Settles(x, v))
    ensures ok ==> rc.contexts == Touched(x.contexts, x.path, v)
    ensures ok ==> rc.Valid(if Settles(x, v) then {} else {symbol})
    ensures ok ==> predicted' == if parent < 0 then symbol else predicted
    ensures ok ==> Extends(old(rc.paths), rc.paths, symbol, x.path + [v])
    ensures rc.symbols.Length == POOL && AllFit(rc.symbols[..])
  {
    hide Represents, Chain, ChainGood, GoodContext, Inserted, Touched, FirstCoded, Bumped, Grown;
    ghost var b := x.contexts[x.path];
    var under;
    symbol, under, count, predicted' := InsertSymbol(rc, sub, v, update, minimum, parent, predicted);
    AboutSlot(rc.symbols[..], rc.g, rc.paths, rc.contexts, if Settles(x, v) then {} else {symbol}, sub);
    Fitting(rc, if Settles(x, v) then {} else {symbol});
    InsertedThenBumped(x.contexts, x.path, v);
    ok, iv', pos' := EncodeSlot(iv, under, count, rc.symbols[sub].escapes, rc.symbols[sub].total, out, pos, x, v);
    if ok {
      rc.ContextUpdate(sub, count, update, minimum, v, b, if Settles(x, v) then {} else {symbol});
      Fitting(rc, if Settles(x, v) then {} else {symbol});
    }
  }

  /** The pool has gained at most one symbol, and symbol stands for p. */
  ghost predicate Extends(paths: seq<Path>, paths': seq<Path>, symbol: nat, p: Path) {
    paths <= paths' && |paths'| <= |paths| + 1 && symbol < |paths'| && paths'[symbol] == p
  }

  /** The pool stands for the model's state between two bytes. */
  ghost predicate Synced(rc: RangeCoder, st: State, predicted: nat, order: nat)
    reads rc, rc.symbols
  {
    && rc.Valid({}) && GoodState(st) && rc.contexts == st.contexts
    && predicted < rc.nextSymbol && rc.paths[predicted] == st.predicted && order == |st.predicted|
  }

  /** nextInput: the next byte's context, and a new pool when this one could run out. */
  method NextInput(rc: RangeCoder, predicted: nat, order: nat, ghost st: State, ghost v: Byte)
    returns (predicted': nat, order': nat)
    requires rc.Valid({}) && GoodState(st) && Chain(st.contexts, st.predicted)
    requires rc.contexts == Learnt(st.contexts, st.predicted, v)
    requires predicted < rc.nextSymbol && rc.paths[predicted] == st.predicted + [v] && order == |st.predicted|
    modifies rc, rc.symbols
    ensures Synced(rc, Next(st, v), predicted', order')
  {
    hide Represents, Learnt, Good;
    AboutSlot(rc.symbols[..], rc.g, rc.paths, rc.contexts, {}, predicted);
    NextIsGood(st, v);
    predicted', order' := predicted, order;
    if order >= SUBCONTEXT_ORDER {
      predicted' := rc.symbols[predicted].parent;
    } else {
      order' := order + 1;
    }
    if rc.nextSymbol >= POOL - SUBCONTEXT_ORDER {
      rc.CreateRoot();
      predicted', order' := 0, 0;
    }
  }

  /** x is where coding v, begun at x0 in the pool before, has come to; sub is x's first context. */
  ghost predicate Underway(rc: RangeCoder, x0: Progress, x: Progress, v: Byte, sub: nat, parent: int, predicted: nat)
    reads rc, rc.symbols
  {
    && rc.Valid(Holes(parent)) && sub < rc.nextSymbol
    && x.contexts == rc.contexts && x.path == rc.paths[sub]
    && SameCourse(x0, x, v) && Coherent(x) && Coherent(x0) && Awaits(rc.paths, parent, x.path, v)
    && if parent < 0 then x == x0 else predicted < rc.nextSymbol && rc.paths[predicted] == x0.path + [v]
  }

  /** v has been learnt, and predicted is its symbol in the longest context. */
  ghost predicate Learned(rc: RangeCoder, x0: Progress, v: Byte, predicted: nat)
    reads rc, rc.symbols
    requires Chain(x0.contexts, x0.path)
  {
    && rc.Valid({}) && rc.contexts == Learnt(x0.contexts, x0.path, v)
    && predicted < rc.nextSymbol && rc.paths[predicted] == x0.path + [v]
  }

  /** The loop over the subcontexts; found if one of them knew v. */
  method EncodeSubcontexts(rc: RangeCoder, v: Byte, predicted: nat, iv: Interval, out: array<Byte>, pos: nat, ghost x0: Progress)
    returns (ok: bool, found: bool, parent: int, predicted': nat, iv': Interval, pos': nat, ghost x: Progress)
    requires Underway(rc, x0, x0, v, predicted, -1, predicted) && x0.iv == iv && x0.done == []
    requires rc.nextSymbol + |x0.path| < POOL && pos <= out.Length
    modifies rc, rc.symbols, out
    ensures !ok ==> Writes(old(out[..]), pos, Outcome(x0, v).0, out[..], false, pos') && AllFit(rc.symbols[..])
    ensures ok && found ==> Learned(rc, x0, v, predicted')
    ensures ok && found ==> Writes(old(out[..]), pos, Outcome(x0, v).0, out[..], true, pos') && iv' == Outcome(x0, v).1
    ensures ok && !found ==> Underway(rc, x0, x, v, 0, parent, predicted') && x.iv == iv' && rc.nextSymbol < POOL
    ensures ok && !found ==> Writes(old(out[..]), pos, x.done, out[..], true, pos')
  {
    hide Represents, SameCourse, Outcome, Learnt, FirstCoded, Chain, ChainGood, CodedAll, Touched, GoodContext;
    x := x0;
    var sub: nat := predicted;
    var count, symbol;
    parent := -1;
    ok, found, predicted', iv', pos' := true, false, predicted, iv, pos;
    while sub != 0
      invariant Underway(rc, x0, x, v, sub, parent, predicted') && x.iv == iv' && ok && !found
      invariant rc.nextSymbol + |x.path| <= old(rc.nextSymbol) + |x0.path|
      invariant Writes(old(out[..]), pos, x.done, out[..], true, pos')
      decreases |x.path|
    {
      ghost var written, p, bytes := out[..], pos', FirstCoded(x, v).0;
      AboutSlot(rc.symbols[..], rc.g, rc.paths, rc.contexts, Holes(parent), sub);
      StepCourse(x0, x, v);
      ok, count, symbol, predicted', iv', pos' := EncodeInContext(rc, sub, v, SUBCONTEXT_SYMBOL_DELTA, 0, parent, predicted', iv', out, pos', x);
      WritesMore(old(out[..]), pos, x.done, written, p, bytes, out[..], ok, pos');
      if !ok { return; }
      if count > 0 {
        found := true;
        return;
      }
      parent := symbol;
      TailAppend(x.path, v);
      x := Escaped(x, v);
      AboutSlot(rc.symbols[..], rc.g, rc.paths, rc.contexts, Holes(parent), sub);
      sub := rc.symbols[sub].parent;
    }
  }

  /** The loop body of enet_range_coder_compress. */
  method EncodeByte(rc: RangeCoder, v: Byte, predicted: nat, order: nat, iv: Interval, out: array<Byte>, pos: nat,
                    ghost st: State)
    returns (ok: bool, predicted': nat, order': nat, iv': Interval, pos': nat)
    requires Synced(rc, st, predicted, order) && Coding(st, iv) && pos <= out.Length
    modifies rc, rc.symbols, out
    ensures Writes(old(out[..]), pos, CodedAll(iv, StepSlots(st, v)).0, out[..], ok, pos')
    ensures ok ==> iv' == CodedAll(iv, StepSlots(st, v)).1
    ensures Chain(st.contexts, st.predicted) && (ok ==> Synced(rc, Next(st, v), predicted', order'))
    ensures AllFit(rc.symbols[..])
  {
    hide Represents, SameCourse, Outcome, Learnt, FirstCoded, Chain, ChainGood, CodedAll, Next, Touched, GoodContext, StepSlots;
    AboutSlot(rc.symbols[..], rc.g, rc.paths, rc.contexts, {}, predicted);
    StartCourse(st, iv, v);
    ghost var x0 := Progress(st.contexts, st.predicted, iv, []);
    ghost var x;
    var found, parent;
    ok, found, parent, predicted', iv', pos', x := EncodeSubcontexts(rc, v, predicted, iv, out, pos, x0);
    order' := order;
    if !ok { return; }
    if !found {
      AboutSlot(rc.symbols[..], rc.g, rc.paths, rc.contexts, Holes(parent), 0);
      ghost var written, p, bytes := out[..], pos', FirstCoded(x, v).0;
      StepCourse(x0, x, v);
      var count, symbol;
      ok, count, symbol, predicted', iv', pos' := EncodeInContext(rc, 0, v, SYMBOL_DELTA, SYMBOL_MINIMUM, parent, predicted', iv', out, pos', x);
      WritesMore(old(out[..]), pos, x.done, written, p, bytes, out[..], ok, pos');
      if !ok { return; }
    }
    predicted', order' := NextInput(rc, predicted', order, st, v);
    Fitting(rc, {});
  }

  function Joined(buffers: seq<seq<Byte>>): seq<Byte> {
    if buffers == [] then [] else buffers[0] + Joined(buffers[1..])
  }

  /** enet_range_coder_compress: the whole stream, or 0 when it does not fit. */
  method Compress(rc: RangeCoder, inBuffers: seq<seq<Byte>>, inLimit: nat, out: array<Byte>) returns (n: nat)
    requires rc.symbols.Length == POOL && AllFit(rc.symbols[..])
    requires forall i :: 1 <= i < |inBuffers| ==> inBuffers[i] != []
    modifies rc, rc.symbols, out
    ensures var stream := Compressed(Joined(inBuffers));
      if inBuffers == [] || inLimit == 0 || |stream| > out.Length then n == 0
      else n == |stream| && out[..n] == stream
    ensures rc.symbols.Length == POOL && AllFit(rc.symbols[..])
  {
    hide Represents, CodedAll, Next, StepSlots, Compressed, GoodState;
    if inBuffers == [] || inLimit <= 0 { return 0; }
    ghost var data := Joined(inBuffers);
    var buffer, at, k := inBuffers[0], 0, 1;
    rc.CreateRoot();
    var ok, predicted, order, iv, pos := true, 0, 0, Start, 0;
    ghost var st, done: seq<Byte> := Initial(), [];
    EncodingStarts(data);
    Fitting(rc, {});
    assert buffer[at..] + Joined(inBuffers[k..]) == data;
    while true
      invariant ok && at <= |buffer| && k <= |inBuffers| && AllFit(rc.symbols[..])
      invariant Synced(rc, st, predicted, order) && Encoding(data, done, st, iv, buffer[at..] + Joined(inBuffers[k..]))
      invariant Writes(old(out[..]), 0, done, out[..], true, pos)
      decreases |buffer[at..] + Joined(inBuffers[k..])|
    {
      ghost var rest := buffer[at..] + Joined(inBuffers[k..]);
      if at >= |buffer| {
        if k >= |inBuffers| { break; }
        buffer, at, k := inBuffers[k], 0, k + 1;
      }
      var value := buffer[at];
      at := at + 1;
      assert rest[0] == value && rest[1..] == buffer[at..] + Joined(inBuffers[k..]);
      ghost var written, p, bytes := out[..], pos, CodedAll(iv, StepSlots(st, value)).0;
      ghost var iv0 := iv;
      ok, predicted, order, iv, pos := EncodeByte(rc, value, predicted, order, iv, out, pos, st);
      EncodingStep(data, done, st, iv0, rest);
      WritesMore(old(out[..]), 0, done, written, p, bytes, out[..], ok, pos);
      if !ok { return 0; }
      done, st := done + bytes, Next(st, value);
      Fitting(rc, {});
    }
    assert Compressed(data) == done + Flush(iv.low);
    ghost var written, p := out[..], pos;
    ok, pos := EncodeFlush(iv.low, out, pos);
    WritesMore(old(out[..]), 0, done, written, p, Flush(iv.low), out[..], ok, pos);
    n := if ok then pos else 0;
  }
}
