module Decompression {
  import opened Arithmetic
  import opened Bytes
  import opened Counting
  import opened RangeArithmetic
  import opened PpmModel
  import opened PoolRelation
  import opened SymbolTree
  import opened RangeCoding
  import opened Compression
  import opened Unambiguity

  /** The decoder is in front of the stream rest: four bytes of it are in code, the others behind pos. */
  ghost predicate Reads(inData: seq<Byte>, pos: nat, code: nat, rest: seq<Byte>) {
    pos <= |inData| && code == Window(rest) && inData[pos..] == Drop(rest, 4)
  }

  /** The normalising loop of ENET_RANGE_CODER_DECODE */
  method DecodeNormalise(iv: Interval, code: nat, inData: seq<Byte>, pos: nat, ghost rest: seq<Byte>)
    returns (iv': Interval, code': nat, pos': nat)
    requires Sound(iv) && Reads(inData, pos, code, rest)
    ensures iv' == Normalise(iv).1 && Reads(inData, pos', code', Drop(rest, |Normalise(iv).0|))
  {
    hide Shifted, SameTop, Window;
    iv', code', pos' := iv, code, pos;
    ghost var done: nat := 0;
    while !Ready(iv')
      invariant Sound(iv') && Reads(inData, pos', code', Drop(rest, done))
      invariant Normalise(iv).1 == Normalise(iv').1 && |Normalise(iv).0| == done + |Normalise(iv').0|
      decreases Slack(iv')
    {
      ghost var s := Drop(rest, done);
      ShiftSound(iv');
      WindowShift(s);
      code' := code' * 256 % WORD;
      if pos' < |inData| {
        assert inData[pos'] == inData[pos'..][0] == At(s, 4);
        code' := code' + inData[pos'];
        pos' := pos' + 1;
      } else {
        assert At(s, 4) == 0;
      }
      assert Drop(s, 1) == Drop(rest, done + 1);
      assert inData[pos'..] == Drop(Drop(s, 1), 4);
      iv' := Shifted(iv');
      done := done + 1;
    }
  }

  /** ENET_RANGE_CODER_DECODE; r is the range as ENET_RANGE_CODER_READ has left it. */
  method RangeDecode(iv: Interval, r: nat, under: nat, count: nat, ghost total: nat,
                     code: nat, inData: seq<Byte>, pos: nat, ghost rest: seq<Byte>)
    returns (iv': Interval, code': nat, pos': nat)
    requires Sound(iv) && Ready(iv) && Codes(Slot(under, count, total)) && r == iv.range / total
    requires Reads(inData, pos, code, rest)
    ensures iv' == Coded(iv, Slot(under, count, total)).1
    ensures Reads(inData, pos', code', Drop(rest, |Coded(iv, Slot(under, count, total)).0|))
  {
    hide Reads;
    NarrowSound(iv, Slot(under, count, total));
    iv', code', pos' := DecodeNormalise(Interval(iv.low + under * r, r * count), code, inData, pos, rest);
  }

  /** ENET_RANGE_CODER_SEED */
  method Seed(inData: seq<Byte>) returns (code: nat, pos: nat)
    ensures Reads(inData, pos, code, inData)
  {
    code, pos := 0, 0;
    if pos < |inData| { code, pos := code + 0x100_0000 * (inData[pos] as int), pos + 1; }
    if pos < |inData| { code, pos := code + 0x1_0000 * (inData[pos] as int), pos + 1; }
    if pos < |inData| { code, pos := code + 0x100 * (inData[pos] as int), pos + 1; }
    if pos < |inData| { code, pos := code + inData[pos], pos + 1; }
  }

  /** ENET_RANGE_CODER_READ, and the truncation to 16 bits of what it is assigned to. */
  method Read(iv: Interval, code: nat, total: nat) returns (r: nat, value: nat)
    requires Sound(iv) && total > 0 && iv.range / total > 0
    ensures r == iv.range / total
    ensures iv.low <= code < WORD && (code - iv.low) / r < BOTTOM ==> value == (code - iv.low) / r
  {
    r := iv.range / total;
    var ahead := (code + WORD - iv.low) % WORD;
    var quotient := ahead / r;
    value := quotient % BOTTOM;
    if iv.low <= code < WORD {
      ModIs(code + WORD - iv.low, WORD, 1, code - iv.low);
      Truncated(quotient);
    }
  }

  lemma Truncated(q: nat)
    ensures q < BOTTOM ==> q % BOTTOM == q
  {
  }

  /** The stream ahead: s from x.done on while there is a byte v to come, or else the encoder's flushed low. */
  ghost predicate Stream(more: bool, x: Progress, v: Byte, s: seq<Byte>, tail: seq<Byte>, rest: seq<Byte>) {
    && Coherent(x)
    && (more ==> Ahead(x, v, s, tail) && |x.done| <= |s| && rest == s[|x.done|..])
    && (!more ==> Window(rest) == x.iv.low && |rest| <= 4)
  }

  /** After a whole slot, an escape or v's, the decoder stands where the encoder stood. */
  lemma StreamFirst(x: Progress, v: Byte, s: seq<Byte>, tail: seq<Byte>, rest: seq<Byte>)
    requires Stream(true, x, v, s, tail, rest)
    ensures var after := Drop(rest, |FirstCoded(x, v).0|);
      && (Settles(x, v) ==> after == tail && Outcome(x, v).1 == FirstCoded(x, v).1)
      && (!Settles(x, v) ==> Stream(true, Passed(x, v), v, s, tail, after))
  {
    hide Outcome, FirstCoded, Ahead, Window;
    AheadFirst(x, v, s, tail);
    if !Settles(x, v) { PassedCourse(x, v); }
  }

  /** What READ gives in a context that can escape: the escape unless v is there. */
  lemma StreamCode(more: bool, x: Progress, v: Byte, s: seq<Byte>, tail: seq<Byte>, rest: seq<Byte>)
    requires Stream(more, x, v, s, tail, rest) && Escapable(x.contexts[x.path])
    ensures var c, w := x.contexts[x.path], Window(rest);
      && Codes(EscapeSlot(c)) && x.iv.range / c.total > 0 && x.iv.low <= w < WORD
      && var code := (w - x.iv.low) / (x.iv.range / c.total);
      && code < BOTTOM
      && if more && Settles(x, v) then SlotOf(x.path, c, v).under <= code < SlotOf(x.path, c, v).under + SlotOf(x.path, c, v).count
         else code < c.escapes
  {
    hide Outcome, FirstCoded, Window, SameTop;
    var c := x.contexts[x.path];
    SlotCodes(x.path, c, v);
    NarrowSound(x.iv, EscapeSlot(c));
    if more { AheadCode(x, v, s, tail); }
  }

  /** Where x's first context stands when it does not hold v: nothing, or an escape, has been read. */
  ghost predicate StreamPassed(more: bool, x: Progress, v: Byte, s: seq<Byte>, tail: seq<Byte>, iv: Interval, rest: seq<Byte>)
    requires Coherent(x)
  {
    && Sound(iv) && Ready(iv)
    && (more ==> !Settles(x, v) && iv == Passed(x, v).iv && Stream(true, Passed(x, v), v, s, tail, rest))
    && (!more ==> Window(rest) == iv.low && |rest| <= 4)
  }

  lemma StreamEscape(more: bool, x: Progress, v: Byte, s: seq<Byte>, tail: seq<Byte>, rest: seq<Byte>)
    requires Stream(more, x, v, s, tail, rest) && Escapable(x.contexts[x.path]) && !(more && Settles(x, v))
    ensures Codes(EscapeSlot(x.contexts[x.path]))
    ensures var (bytes, iv) := Coded(x.iv, EscapeSlot(x.contexts[x.path]));
      StreamPassed(more, x, v, s, tail, iv, Drop(rest, |bytes|))
  {
    hide Outcome, Ahead, Window, SameTop;
    var slot := EscapeSlot(x.contexts[x.path]);
    SlotCodes(x.path, x.contexts[x.path], v);
    if more {
      StreamFirst(x, v, s, tail, rest);
    } else {
      NarrowSound(x.iv, slot);
      NormaliseAtEnd(Narrowed(x.iv, slot), rest);
    }
  }

  lemma StreamSkip(more: bool, x: Progress, v: Byte, s: seq<Byte>, tail: seq<Byte>, rest: seq<Byte>)
    requires Stream(more, x, v, s, tail, rest) && !Escapable(x.contexts[x.path]) && x.path != []
    ensures StreamPassed(more, x, v, s, tail, x.iv, rest)
  {
    hide Outcome, Ahead, Window, SameTop;
    SlotCodes(x.path, x.contexts[x.path], v);
    if more { StreamFirst(x, v, s, tail, rest); assert Drop(rest, 0) == rest; }
  }

  /** A subcontext that holds v: take it, and let the context learn. */
  method TakeSymbol(rc: RangeCoder, sub: nat, iv: Interval, r: nat, c: nat, code: nat, inData: seq<Byte>, pos: nat,
                    ghost x: Progress, ghost v: Byte, ghost rest: seq<Byte>)
    returns (ok: bool, symbol: nat, value: Byte, iv': Interval, code': nat, pos': nat)
    requires rc.Valid({}) && sub < rc.nextSymbol < POOL && Coherent(x) && x.path != [] && Settles(x, v)
    requires x.contexts == rc.contexts && x.path == rc.paths[sub] && x.iv == iv && Reads(inData, pos, code, rest)
    requires var b := x.contexts[x.path];
      b.total > 0 && r == iv.range / b.total && Sum(b.counts, 0, v) <= c < Sum(b.counts, 0, v) + b.counts[v]
    modifies rc, rc.symbols
    ensures ok && value == v && rc.Valid({}) && rc.contexts == Touched(x.contexts, x.path, v)
    ensures rc.paths == old(rc.paths) && symbol < rc.nextSymbol && rc.paths[symbol] == x.path + [v]
    ensures iv' == FirstCoded(x, v).1 && Reads(inData, pos', code', Drop(rest, |FirstCoded(x, v).0|))
  {
    hide Represents, Chain, ChainGood, Inserted, Touched, Bumped, Grown, Reads, SameTop;
    ghost var b := x.contexts[x.path];
    AboutSlot(rc.symbols[..], rc.g, rc.paths, rc.contexts, {}, sub);
    GrowsWithin(x.path, b, v);
    SlotCodes(x.path, b, v);
    InsertedThenBumped(x.contexts, x.path, v);
    var under, count;
    ok, symbol, value, under, count := rc.TryDecode(sub, c, SUBCONTEXT_SYMBOL_DELTA, v, {});
    AboutSlot(rc.symbols[..], rc.g, rc.paths, rc.contexts, {}, sub);
    var escapes := rc.symbols[sub].escapes;
    iv', code', pos' := RangeDecode(iv, r, escapes + under, count, b.total, code, inData, pos, rest);
    rc.ContextUpdate(sub, count, SUBCONTEXT_SYMBOL_DELTA, 0, v, b, {});
  }

  /** One context's part in decoding: skip it, read its escape, or find v in it. */
  method DecodeInContext(rc: RangeCoder, sub: nat, iv: Interval, code: nat, inData: seq<Byte>, pos: nat,
                         ghost more: bool, ghost x: Progress, ghost v: Byte, ghost s: seq<Byte>, ghost tail: seq<Byte>,
                         ghost rest: seq<Byte>)
    returns (ok: bool, found: bool, symbol: nat, value: Byte, iv': Interval, code': nat, pos': nat, ghost rest': seq<Byte>)
    requires rc.Valid({}) && 0 < sub < rc.nextSymbol < POOL
    requires x.contexts == rc.contexts && x.path == rc.paths[sub] && x.iv == iv && x.path != []
    requires Stream(more, x, v, s, tail, rest) && Reads(inData, pos, code, rest)
    modifies rc, rc.symbols
    ensures ok && found == (more && Settles(x, v)) && Reads(inData, pos', code', rest') && rc.Valid({})
    ensures rc.paths == old(rc.paths)
    ensures !found ==> rc.contexts == x.contexts && StreamPassed(more, x, v, s, tail, iv', rest')
                       && unchanged(rc) && unchanged(rc.symbols)
    ensures found ==> value == v && rc.contexts == Touched(x.contexts, x.path, v)
    ensures found ==> symbol < rc.nextSymbol && rc.paths[symbol] == x.path + [v]
    ensures found ==> rest' == tail && iv' == Outcome(x, v).1
  {
    hide Represents, Chain, ChainGood, Outcome, Ahead, FirstCoded, Reads, SameTop, Touched, GoodContext;
    ok, found, symbol, value, iv', code', pos', rest' := true, false, 0, 0, iv, code, pos, rest;
    AboutSlot(rc.symbols[..], rc.g, rc.paths, rc.contexts, {}, sub);
    var escapes, total := rc.symbols[sub].escapes, rc.symbols[sub].total;
    if escapes <= 0 || escapes >= total {
      StreamSkip(more, x, v, s, tail, rest);
      return;
    }
    StreamCode(more, x, v, s, tail, rest);
    CodeIsWindow(inData, pos, code, rest);
    var r, c := Read(iv, code, total);
    if c < escapes {
      StreamEscape(more, x, v, s, tail, rest);
      iv', code', pos' := RangeDecode(iv, r, 0, escapes, total, code, inData, pos, rest);
      rest' := Drop(rest, |Coded(iv, Slot(0, escapes, total)).0|);
      return;
    }
    StreamFirst(x, v, s, tail, rest);
    found := true;
    ok, symbol, value, iv', code', pos' := TakeSymbol(rc, sub, iv, r, c - escapes, code, inData, pos, x, v, rest);
    rest' := Drop(rest, |FirstCoded(x, v).0|);
  }

  lemma CodeIsWindow(inData: seq<Byte>, pos: nat, code: nat, rest: seq<Byte>)
    requires Reads(inData, pos, code, rest)
    ensures code == Window(rest)
  {
  }

  /** x without its first context, which does not hold v. */
  ghost function Beyond(more: bool, x: Progress, v: Byte, iv: Interval): Progress
    requires Coherent(x) && x.path != [] && !(more && Settles(x, v))
  {
    if more then Passed(x, v) else Progress(x.contexts, x.path[1..], iv, [])
  }

  lemma StreamBeyond(more: bool, x: Progress, v: Byte, s: seq<Byte>, tail: seq<Byte>, iv: Interval, rest: seq<Byte>)
    requires Coherent(x) && x.path != [] && !(more && Settles(x, v))
    requires StreamPassed(more, x, v, s, tail, iv, rest)
    ensures var y := Beyond(more, x, v, iv);
      && Stream(more, y, v, s, tail, rest) && y.iv == iv && y.path == x.path[1..] && y.contexts == x.contexts
      && (more ==> Outcome(y, v) == Outcome(x, v) && Finder(x.contexts, x.path, v) == Finder(y.contexts, y.path, v))
  {
    hide FirstCoded, Outcome, Ahead, Window, GoodContext;
    assert Chain(x.contexts, x.path[1..]) && ChainGood(x.contexts, x.path[1..]);
    assert GoodContext(x.path[1..], x.contexts[x.path[1..]]);
    if more { PassedCourse(x, v); }
  }

  /** The subcontext loop of enet_range_coder_decompress: stops in the context that holds v, or at the root. */
  method DecodeSubcontexts(rc: RangeCoder, predicted: nat, iv: Interval, code: nat, inData: seq<Byte>, pos: nat,
                           ghost more: bool, ghost x0: Progress, ghost v: Byte, ghost s: seq<Byte>, ghost tail: seq<Byte>,
                           ghost rest: seq<Byte>)
    returns (ok: bool, found: bool, sub: nat, symbol: nat, value: Byte, iv': Interval, code': nat, pos': nat,
             ghost x: Progress, ghost rest': seq<Byte>)
    requires rc.Valid({}) && predicted < rc.nextSymbol < POOL
    requires x0.contexts == rc.contexts && x0.path == rc.paths[predicted] && x0.iv == iv
    requires Stream(more, x0, v, s, tail, rest) && Reads(inData, pos, code, rest)
    modifies rc, rc.symbols
    ensures ok && rc.Valid({}) && rc.paths == old(rc.paths) && Reads(inData, pos', code', rest')
    ensures sub < rc.nextSymbol && x.path == rc.paths[sub] && x.contexts == x0.contexts && Coherent(x)
    ensures more ==> Finder(x0.contexts, x0.path, v) == Finder(x.contexts, x.path, v) && Outcome(x0, v) == Outcome(x, v)
    ensures !found ==> sub == 0 && rc.contexts == x.contexts && Stream(more, x, v, s, tail, rest') && iv' == x.iv
    ensures found ==> more && Settles(x, v) && value == v && rc.contexts == Touched(x.contexts, x.path, v)
    ensures found ==> symbol < rc.nextSymbol && rc.paths[symbol] == x.path + [v]
    ensures found ==> rest' == tail && iv' == Outcome(x0, v).1
  {
    hide Represents, ChainGood, Outcome, Ahead, FirstCoded, Reads, SameTop, Touched, GoodContext, Window, Finder;
    ok, found, symbol, value, iv', code', pos', x, rest' := true, false, 0, 0, iv, code, pos, x0, rest;
    sub := predicted;
    AboutSlot(rc.symbols[..], rc.g, rc.paths, rc.contexts, {}, predicted);
    while sub != 0
      invariant ok && !found && rc.Valid({}) && rc.paths == old(rc.paths) && Reads(inData, pos', code', rest')
      invariant sub < rc.nextSymbol && x.path == rc.paths[sub] && x.contexts == x0.contexts == rc.contexts
      invariant Stream(more, x, v, s, tail, rest') && iv' == x.iv
      invariant more ==> Finder(x0.contexts, x0.path, v) == Finder(x.contexts, x.path, v) && Outcome(x0, v) == Outcome(x, v)
      decreases |x.path|
    {
      AboutSlot(rc.symbols[..], rc.g, rc.paths, rc.contexts, {}, sub);
      ok, found, symbol, value, iv', code', pos', rest' := DecodeInContext(rc, sub, iv', code', inData, pos', more, x, v, s, tail, rest');
      if !ok || found { return; }
      StreamBeyond(more, x, v, s, tail, iv', rest');
      x := Beyond(more, x, v, iv');
      sub := rc.symbols[sub].parent;
    }
  }

  /** The root: v, which may have to be created, and what the root learns. */
  method TakeInRoot(rc: RangeCoder, iv: Interval, r: nat, c: nat, code: nat, inData: seq<Byte>, pos: nat,
                    ghost x: Progress, ghost v: Byte, ghost rest: seq<Byte>)
    returns (symbol: nat, value: Byte, iv': Interval, code': nat, pos': nat)
    requires rc.Valid({}) && 0 < rc.nextSymbol < POOL && Coherent(x)
    requires x.contexts == rc.contexts && x.path == [] && x.iv == iv && Reads(inData, pos, code, rest)
    requires var b := x.contexts[[]];
      && b.total > 0 && r == iv.range / b.total
      && v + Sum(b.counts, 0, v) <= c < v + Sum(b.counts, 0, v) + b.counts[v] + SYMBOL_MINIMUM
    modifies rc, rc.symbols
    ensures value == v && rc.Valid({}) && rc.contexts == Touched(x.contexts, [], v)
    ensures Extends(old(rc.paths), rc.paths, symbol, [v])
    ensures iv' == FirstCoded(x, v).1 && Reads(inData, pos', code', Drop(rest, |FirstCoded(x, v).0|))
  {
    hide Represents, Chain, ChainGood, Inserted, Touched, Bumped, Grown, Reads, SameTop;
    ghost var b := x.contexts[[]];
    AboutSlot(rc.symbols[..], rc.g, rc.paths, rc.contexts, {}, 0);
    GrowsWithin([], b, v);
    SlotCodes([], b, v);
    InsertedThenBumped(x.contexts, [], v);
    var under, count;
    symbol, value, under, count := rc.RootDecode(0, c, SYMBOL_DELTA, v, {});
    ghost var holes := if b.counts[v] > 0 then {} else {symbol};
    assert {} + {symbol} == {symbol};
    assert rc.Valid(holes);
    if b.counts[v] == 0 { RootSymbol(rc.symbols[..], rc.g, rc.paths, rc.contexts, symbol, v); }
    AboutSlot(rc.symbols[..], rc.g, rc.paths, rc.contexts, {}, 0);
    iv', code', pos' := RangeDecode(iv, r, rc.symbols[0].escapes + under, count, b.total, code, inData, pos, rest);
    rc.ContextUpdate(0, count, SYMBOL_DELTA, SYMBOL_MINIMUM, v, b, {});
  }

  /** The root's part in decoding: v, or the escape that ends the stream. */
  method DecodeInRoot(rc: RangeCoder, iv: Interval, code: nat, inData: seq<Byte>, pos: nat,
                      ghost more: bool, ghost x: Progress, ghost v: Byte, ghost s: seq<Byte>, ghost tail: seq<Byte>,
                      ghost rest: seq<Byte>)
    returns (ended: bool, symbol: nat, value: Byte, iv': Interval, code': nat, pos': nat)
    requires rc.Valid({}) && 0 < rc.nextSymbol < POOL
    requires x.contexts == rc.contexts && x.path == [] && x.iv == iv
    requires Stream(more, x, v, s, tail, rest) && Reads(inData, pos, code, rest)
    modifies rc, rc.symbols
    ensures ended == !more
    ensures more ==> value == v && rc.Valid({}) && rc.contexts == Touched(x.contexts, [], v)
    ensures more ==> Extends(old(rc.paths), rc.paths, symbol, [v])
    ensures more ==> Reads(inData, pos', code', tail) && iv' == Outcome(x, v).1
  {
    hide Represents, Chain, ChainGood, Outcome, Ahead, FirstCoded, Reads, SameTop, Touched, Bumped, Grown;
    ghost var b := x.contexts[x.path];
    ended, symbol, value, iv', code', pos' := false, 0, 0, iv, code, pos;
    AboutSlot(rc.symbols[..], rc.g, rc.paths, rc.contexts, {}, 0);
    var escapes, total := rc.symbols[0].escapes, rc.symbols[0].total;
    assert b == Context(rc.g.counts[0], escapes, total);
    StreamCode(more, x, v, s, tail, rest);
    CodeIsWindow(inData, pos, code, rest);
    var r, c := Read(iv, code, total);
    if c < escapes {
      iv', code', pos' := RangeDecode(iv, r, 0, escapes, total, code, inData, pos, rest);
      ended := true;
      return;
    }
    StreamFirst(x, v, s, tail, rest);
    symbol, value, iv', code', pos' := TakeInRoot(rc, iv, r, c - escapes, code, inData, pos, x, v, rest);
  }

  /** r is on the way from a longer context to q, or is q. */
  ghost predicate LeadsTo(r: Path, q: Path) { |q| <= |r| && r[|r| - |q|..] == q }

  /** patchContexts has come to r; the links of the contexts before are in place but for parent. */
  ghost predicate Patching(rc: RangeCoder, p: Path, r: Path, q: Path, v: Byte, goal: Contexts, patch: nat, sub: nat,
                           bottom: nat, parent: int, predicted: nat)
    reads rc, rc.symbols
  {
    && rc.Valid(Holes(parent)) && patch < rc.nextSymbol && sub < rc.nextSymbol && bottom < rc.nextSymbol
    && rc.paths[patch] == r && rc.paths[sub] == q && rc.paths[bottom] == q + [v]
    && LeadsTo(r, q) && rc.nextSymbol + |r| - |q| <= POOL
    && Chain(rc.contexts, r) && ChainGood(rc.contexts, r) && Patched(rc.contexts, r, q, v) == goal
    && Awaits(rc.paths, parent, r, v)
    && if parent < 0 then r == p && predicted == patch else predicted < rc.nextSymbol && rc.paths[predicted] == p + [v]
  }

  lemma PatchNext(m: Contexts, r: Path, q: Path, v: Byte)
    requires LeadsTo(r, q) && r != q && Chain(m, r) && ChainGood(m, r)
    ensures r in m && GoodContext(r, m[r])
    ensures Chain(Touched(m, r, v), r[1..]) && ChainGood(Touched(m, r, v), r[1..])
    ensures Patched(Touched(m, r, v), r[1..], q, v) == Patched(m, r, q, v)
    ensures |q| < |r| && LeadsTo(r[1..], q)
  {
    hide Touched, GoodContext;
    ChainGoodAfter(m, r, r[1..], v);
  }

  /** The loop body of patchContexts. */
  method PatchContext(rc: RangeCoder, patch: nat, v: Byte, parent: int, predicted: nat,
                      ghost p: Path, ghost r: Path, ghost q: Path, ghost goal: Contexts, ghost sub: nat, ghost bottom: nat)
    returns (parent': int, predicted': nat, next: nat)
    requires Patching(rc, p, r, q, v, goal, patch, sub, bottom, parent, predicted) && patch != sub
    modifies rc, rc.symbols
    ensures r != [] && Patching(rc, p, r[1..], q, v, goal, next, sub, bottom, parent', predicted')
  {
    hide Represents, Chain, ChainGood, GoodContext, Inserted, Touched, Bumped, Grown, Patched, LeadsTo;
    ghost var m := rc.contexts;
    if r == q { OneSlot(rc, Holes(parent), patch, sub); }
    PatchNext(m, r, q, v);
    TailAppend(r, v);
    InsertedThenBumped(m, r, v);
    AboutSlot(rc.symbols[..], rc.g, rc.paths, rc.contexts, Holes(parent), patch);
    var symbol, under, count;
    symbol, under, count, predicted' := InsertSymbol(rc, patch, v, SUBCONTEXT_SYMBOL_DELTA, 0, parent, predicted);
    parent' := symbol;
    rc.ContextUpdate(patch, count, SUBCONTEXT_SYMBOL_DELTA, 0, v, m[r], if m[r].counts[v] > 0 then {} else {symbol});
    FewerHoles(rc, if m[r].counts[v] > 0 then {} else {symbol}, {symbol});
    AboutSlot(rc.symbols[..], rc.g, rc.paths, rc.contexts, Holes(parent'), patch);
    next := rc.symbols[patch].parent;
  }

  /** patchContexts, and * parent = bottom: what the encoder learnt on its way down is learnt here afterwards. */
  method PatchContexts(rc: RangeCoder, predicted: nat, sub: nat, v: Byte, bottom: nat,
                       ghost m: Contexts, ghost p: Path, ghost q: Path) returns (predicted': nat)
    requires rc.Valid({}) && predicted < rc.nextSymbol && sub < rc.nextSymbol && bottom < rc.nextSymbol
    requires rc.paths[predicted] == p && rc.paths[sub] == q && rc.paths[bottom] == q + [v]
    requires Chain(m, p) && ChainGood(m, p) && q == Finder(m, p, v) && rc.contexts == Touched(m, q, v)
    requires GoodContext(q, m[q]) && rc.nextSymbol + |p| - |q| <= POOL
    modifies rc, rc.symbols
    ensures rc.Valid({}) && rc.contexts == Learnt(m, p, v)
    ensures predicted' < rc.nextSymbol && rc.paths[predicted'] == p + [v]
  {
    hide Represents, ChainGood, GoodContext, Touched, Finder, Learnt;
    ghost var goal, r := Learnt(m, p, v), p;
    PatchedIsLearnt(m, p, q, v);
    ChainGoodAfter(m, q, p, v);
    var patch, parent := predicted, -1;
    predicted' := predicted;
    while patch != sub
      invariant Patching(rc, p, r, q, v, goal, patch, sub, bottom, parent, predicted')
      decreases |r|
    {
      parent, predicted', patch := PatchContext(rc, patch, v, parent, predicted', p, r, q, goal, sub, bottom);
      r := r[1..];
    }
    predicted' := LinkParent(rc, parent, predicted', bottom, Holes(parent));
    assert Holes(parent) - Holes(parent) == {};
  }

  lemma StreamStart(st: State, iv: Interval, data: seq<Byte>)
    requires Coding(st, iv) && data != []
    ensures var x, rest := Progress(st.contexts, st.predicted, iv, []), Encoded(st, iv, data);
      Stream(true, x, data[0], rest, AheadTail(st, iv, data), rest)
  {
    hide Ahead, Encoded;
    AheadStart(st, iv, data);
    assert Encoded(st, iv, data)[0..] == Encoded(st, iv, data);
  }

  lemma StreamEnd(st: State, iv: Interval, v: Byte)
    requires Coding(st, iv)
    ensures Chain(st.contexts, st.predicted) && ChainGood(st.contexts, st.predicted)
    ensures var x := Progress(st.contexts, st.predicted, iv, []);
      Stream(false, x, v, Encoded(st, iv, []), [], Encoded(st, iv, []))
  {
    hide Outcome, Next, Window, StepSlots;
    StartCourse(st, iv, v);
    FlushWindow(iv.low);
  }

  /** v has been found in the context of sub, has been learnt there and nowhere else, and bottom is its symbol. */
  ghost predicate Found(rc: RangeCoder, m: Contexts, p: Path, v: Byte, predicted: nat, sub: nat, bottom: nat)
    reads rc, rc.symbols
  {
    && Chain(m, p) && ChainGood(m, p) && rc.Valid({}) && predicted < rc.nextSymbol && rc.paths[predicted] == p
    && var q := Finder(m, p, v);
    && GoodContext(q, m[q]) && rc.contexts == Touched(m, q, v) && rc.nextSymbol + |p| - |q| <= POOL
    && sub < rc.nextSymbol && rc.paths[sub] == q && bottom < rc.nextSymbol && rc.paths[bottom] == q + [v]
  }

  lemma FoundHere(rc: RangeCoder, x0: Progress, x: Progress, v: Byte, predicted: nat, sub: nat, bottom: nat)
    requires Coherent(x0) && Coherent(x) && Settles(x, v) && x.contexts == x0.contexts
    requires Finder(x0.contexts, x0.path, v) == Finder(x.contexts, x.path, v)
    requires rc.Valid({}) && rc.contexts == Touched(x.contexts, x.path, v)
    requires predicted < rc.nextSymbol && rc.paths[predicted] == x0.path
    requires sub < rc.nextSymbol && rc.paths[sub] == x.path
    requires bottom < rc.nextSymbol && rc.paths[bottom] == x.path + [v]
    requires rc.nextSymbol + |x0.path| - |x.path| <= POOL
    ensures Found(rc, x0.contexts, x0.path, v, predicted, sub, bottom) == true
  {
    hide Represents, Touched, GoodContext;
    assert Finder(x.contexts, x.path, v) == x.path;
  }

  /** One byte's search, through the subcontexts and in the root. */
  method FindSymbol(rc: RangeCoder, predicted: nat, iv: Interval, code: nat, inData: seq<Byte>, pos: nat,
                    ghost more: bool, ghost x0: Progress, ghost v: Byte, ghost tail: seq<Byte>, ghost rest: seq<Byte>)
    returns (ok: bool, ended: bool, sub: nat, bottom: nat, value: Byte, iv': Interval, code': nat, pos': nat)
    requires rc.Valid({}) && predicted < rc.nextSymbol < POOL - SUBCONTEXT_ORDER
    requires x0.contexts == rc.contexts && x0.path == rc.paths[predicted] && x0.iv == iv && |x0.path| <= SUBCONTEXT_ORDER
    requires Stream(more, x0, v, rest, tail, rest) && Reads(inData, pos, code, rest)
    modifies rc, rc.symbols
    ensures ok && ended == !more
    ensures more ==> value == v && Found(rc, x0.contexts, x0.path, v, predicted, sub, bottom) == true
    ensures more ==> Reads(inData, pos', code', tail) && iv' == Outcome(x0, v).1
  {
    hide Represents, Chain, ChainGood, GoodContext, Touched, Finder, Outcome, Reads, Found, Ahead, Window, SameTop;
    ghost var x, ahead;
    var found;
    ended := false;
    ok, found, sub, bottom, value, iv', code', pos', x, ahead :=
      DecodeSubcontexts(rc, predicted, iv, code, inData, pos, more, x0, v, rest, tail, rest);
    if !ok { return; }
    if !found {
      AboutSlot(rc.symbols[..], rc.g, rc.paths, rc.contexts, {}, 0);
      ended, bottom, value, iv', code', pos' := DecodeInRoot(rc, iv', code', inData, pos', more, x, v, rest, tail, ahead);
      if ended { return; }
    }
    FoundHere(rc, x0, x, v, predicted, sub, bottom);
  }

  /** One turn of the decoder's loop, up to the output of the byte. */
  method DecodeByte(rc: RangeCoder, predicted: nat, order: nat, iv: Interval, code: nat, inData: seq<Byte>, pos: nat,
                    ghost st: State, ghost data: seq<Byte>)
    returns (ok: bool, ended: bool, value: Byte, predicted': nat, iv': Interval, code': nat, pos': nat)
    requires Synced(rc, st, predicted, order) && Coding(st, iv) && Reads(inData, pos, code, Encoded(st, iv, data))
    modifies rc, rc.symbols
    ensures ok && ended == (data == [])
    ensures !ended ==>
      && value == data[0] && rc.Valid({})
      && Chain(st.contexts, st.predicted) && rc.contexts == Learnt(st.contexts, st.predicted, value)
      && predicted' < rc.nextSymbol && rc.paths[predicted'] == st.predicted + [value]
      && iv' == CodedAll(iv, StepSlots(st, value)).1 && Coding(Next(st, value), iv')
      && Reads(inData, pos', code', Encoded(Next(st, value), iv', data[1..]))
  {
    hide Represents, ChainGood, GoodContext, Touched, Finder, Learnt, Outcome, Encoded, Reads, CodedAll, Next, StepSlots, Stream, Good;
    ghost var more, v := data != [], if data == [] then 0 else data[0];
    ghost var x0, rest := Progress(st.contexts, st.predicted, iv, []), Encoded(st, iv, data);
    if more { AheadStart(st, iv, data); StreamStart(st, iv, data); } else { StreamEnd(st, iv, v); }
    ghost var tail := if more then AheadTail(st, iv, data) else [];
    AboutSlot(rc.symbols[..], rc.g, rc.paths, rc.contexts, {}, predicted);
    var sub, bottom;
    predicted' := predicted;
    ok, ended, sub, bottom, value, iv', code', pos' := FindSymbol(rc, predicted, iv, code, inData, pos, more, x0, v, tail, rest);
    if !ok || ended { return; }
    predicted' := PatchContexts(rc, predicted, sub, value, bottom, st.contexts, st.predicted, rc.paths[sub]);
  }

  lemma OneMore(data: seq<Byte>, at: nat, value: Byte)
    requires at < |data| && value == data[at..][0]
    ensures data[..at] + [value] == data[..at + 1] && data[at..][1..] == data[at + 1..]
  {
  }

  /** enet_range_coder_decompress, for a stream that enet_range_coder_compress has made of data. */
  method Decompress(rc: RangeCoder, inData: seq<Byte>, out: array<Byte>, ghost data: seq<Byte>) returns (n: nat)
    requires rc.symbols.Length == POOL && AllFit(rc.symbols[..])
    requires inData == Compressed(data)
    modifies rc, rc.symbols, out
    ensures if |data| > out.Length then n == 0 else n == |data| && out[..n] == data
  {
    hide Represents, Compressed, GoodState, Encoded, Reads, CodedAll, Next, StepSlots, Learnt, Chain;
    OnlyNothingIsEmpty(data);
    if inData == [] { return 0; }
    rc.CreateRoot();
    InitialIsGood();
    var predicted, order, iv := 0, 0, Start;
    var code, pos := Seed(inData);
    var outPos: nat := 0;
    n := 0;
    ghost var st, rest := Initial(), data;
    EncodingStarts(data);
    assert [] + Encoded(st, iv, rest) == Encoded(st, iv, rest);
    while true
      invariant Synced(rc, st, predicted, order) && Coding(st, iv) && Reads(inData, pos, code, Encoded(st, iv, rest))
      invariant n == 0 && outPos <= |data| && rest == data[outPos..]
      invariant Writes(old(out[..]), 0, data[..outPos], out[..], true, outPos)
      decreases |rest|
    {
      var ok, ended, value;
      ok, ended, value, predicted, iv, code, pos := DecodeByte(rc, predicted, order, iv, code, inData, pos, st, rest);
      if !ok { return; }
      if ended { break; }
      ghost var written, at := out[..], outPos;
      ok, outPos := Output(value, out, outPos);
      WritesMore(old(out[..]), 0, data[..at], written, at, [value], out[..], ok, outPos);
      OneMore(data, at, value);
      if !ok { return; }
      predicted, order := NextInput(rc, predicted, order, st, value);
      st, rest := Next(st, value), rest[1..];
    }
    assert data[..outPos] == data;
    n := outPos;
  }

  /** enet_range_coder_compress, then enet_range_coder_decompress with the same coder. */
  method RoundTrip(rc: RangeCoder, inBuffers: seq<seq<Byte>>, packed: array<Byte>, unpacked: array<Byte>)
    returns (n: nat, m: nat)
    requires rc.symbols.Length == POOL && AllFit(rc.symbols[..]) && packed != unpacked
    requires forall i :: 1 <= i < |inBuffers| ==> inBuffers[i] != []
    modifies rc, rc.symbols, packed, unpacked
    ensures n > 0 && |Joined(inBuffers)| <= unpacked.Length ==>
      m == |Joined(inBuffers)| && unpacked[..m] == Joined(inBuffers)
  {
    n := Compress(rc, inBuffers, |Joined(inBuffers)|, packed);
    m := 0;
    if n > 0 { m := Decompress(rc, packed[..n], unpacked, Joined(inBuffers)); }
  }
}
