module RangeCoding {
  import opened Bytes
  import opened Counting
  import opened RangeArithmetic
  import opened SymbolTree
  import opened PpmModel
  import opened PoolRelation

  ghost predicate AllFit(s: seq<Symbol>) {
    forall i :: 0 <= i < |s| ==> Fits(s[i])
  }

  ghost predicate Represents(s: seq<Symbol>, g: Shape, paths: seq<Path>, m: Contexts, holes: set<int>) {
    && AllFit(s)
    && PoolOk(s, g, paths, m)
    && ParentsOk(s, paths, holes)
  }

  /** What the pool says about slot c. */
  lemma AboutSlot(s: seq<Symbol>, g: Shape, paths: seq<Path>, m: Contexts, holes: set<int>, c: nat)
    requires Represents(s, g, paths, m, holes) && c < |paths|
    ensures AllFit(s) && c < |s| && c < |g.counts| && |m| == |paths| && paths[0] == [] && (c != 0 ==> paths[c] != [])
    ensures paths[c] in m && m[paths[c]] == Context(g.counts[c], s[c].escapes, s[c].total)
    ensures c != 0 && c !in holes ==> s[c].parent < |paths| && paths[s[c].parent] == paths[c][1..]
  {
    assert SlotOk(s, g, paths, m, c);
  }

  /** A symbol of the root links to the root, slot 0, as it was created. */
  lemma RootSymbol(s: seq<Symbol>, g: Shape, paths: seq<Path>, m: Contexts, symbol: nat, v: Byte)
    requires Represents(s, g, paths, m, {symbol}) && symbol < |paths|
    requires paths[symbol] == [v] && symbol < |s| && s[symbol].parent == 0
    ensures Represents(s, g, paths, m, {})
  {
    assert paths[symbol][1..] == [];
  }

  class RangeCoder {
    const symbols: array<Symbol>
    var nextSymbol: nat
    ghost var g: Shape
    ghost var paths: seq<Path>
    ghost var contexts: Contexts

    /** "== true": a caller's obligation is proved as one fact, not clause by clause. */
    ghost predicate Valid(holes: set<int>)
      reads this, symbols
    {
      && symbols.Length == POOL && nextSymbol == |paths| <= POOL
      && Represents(symbols[..], g, paths, contexts, holes) == true
    }

    /** Whatever the memory holds at first, each field is within its width. */
    constructor ()
      ensures fresh(symbols) && symbols.Length == POOL && AllFit(symbols[..])
    {
      symbols := new Symbol[POOL](_ => RootSlot());
    }

    /** An empty pool, and ENET_CONTEXT_CREATE for the root. */
    method CreateRoot()
      requires symbols.Length == POOL && AllFit(symbols[..])
      modifies this, symbols
      ensures Valid({}) && contexts == Initial().contexts && paths == [[]]
    {
      nextSymbol := 0;
      Store(nextSymbol, Symbol(0, 0, 0, 0, 0, 0, ESCAPE_MINIMUM, ESCAPE_MINIMUM + 256 * SYMBOL_MINIMUM, 0));
      nextSymbol := nextSymbol + 1;
      PoolStarts(symbols[..]);
      g, paths, contexts := RootShape, [[]], Initial().contexts;
    }

    /** Every write to the pool goes through here: each field fits its 8 or 16 bits. */
    method Store(i: nat, x: Symbol)
      requires i < symbols.Length && Fits(x) && AllFit(symbols[..])
      modifies symbols
      ensures symbols[..] == old(symbols[..])[i := x] && AllFit(symbols[..])
    {
      symbols[i] := x;
      assert symbols[..] == old(symbols[..])[i := x];
    }

    /** The loop of ENET_CONTEXT_ENCODE up to the node where it stops. */
    method Walk(c: nat, v: Byte, update: nat) returns (node: nat, under: nat)
      requires TreeOk(symbols[..], g) && AllFit(symbols[..])
      requires c < |g.place| == |g.counts| <= symbols.Length && symbols[c].symbols != 0
      requires Sum(g.counts[c], 0, 256) + update < 0x10000
      modifies symbols
      ensures AllFit(symbols[..])
      ensures WalkingAt(old(symbols[..]), symbols[..], g, c, v, update, node, under) == true
      ensures v < symbols[node].value ==> symbols[node].left == 0
      ensures v > symbols[node].value ==> symbols[node].right == 0
    {
      hide TreeOk, Above, Raised, Inside;
      ghost var s := symbols[..];
      WalkStart(s, g, c, v, update);
      node := c + symbols[c].symbols;
      under := 0;
      while true
        invariant AllFit(symbols[..])
        invariant WalkingAt(s, symbols[..], g, c, v, update, node, under) == true
        decreases g.place[node].hi - g.place[node].lo
      {
        if v < symbols[node].value && symbols[node].left != 0 {
          WalkLeft(s, symbols[..], g, c, v, update, node, under);
          Store(node, symbols[node].(under := symbols[node].under + update));
          node := node + symbols[node].left;
        } else if v > symbols[node].value && symbols[node].right != 0 {
          WalkRight(s, symbols[..], g, c, v, update, node, under);
          under := under + symbols[node].under;
          node := node + symbols[node].right;
        } else {
          break;
        }
      }
    }

    /** ENET_SYMBOL_CREATE and the link to the new symbol. s is the pool before the search. */
    method AddSymbol(c: nat, v: Byte, update: nat, at: nat, link: Link,
                     ghost s: seq<Symbol>, ghost lo: int, ghost hi: int, ghost holes: set<int>) returns (symbol: nat)
      requires symbols.Length == POOL == |s| && nextSymbol == |paths| < POOL && AllFit(symbols[..])
      requires PoolOk(s, g, paths, contexts) && ParentsOk(s, paths, holes)
      requires c < |paths| && 0 < update == Delta(paths[c])
      requires Walked(s, symbols[..], g, c, v, update) && EmptyBranch(s, g, c, v, at, link, lo, hi)
      modifies this, symbols
      ensures Valid(holes + {symbol})
      ensures Inserts(old(paths), old(contexts), c, v, false, paths, contexts, symbol)
      ensures symbols[symbol].parent == 0
    {
      hide TreeOk, Walked, ParentsOk, Inserted, PathOk, SlotOk, KnownOk, Distinct, Above, Zero;
      ghost var t := symbols[..];
      symbol := nextSymbol;
      nextSymbol := nextSymbol + 1;
      Store(symbol, Symbol(v, update, update, 0, 0, 0, 0, 0, 0));
      match link {
        case FromContext => Store(at, symbols[at].(symbols := symbol - at));
        case FromLeft => Store(at, symbols[at].(left := symbol - at));
        case FromRight => Store(at, symbols[at].(right := symbol - at));
      }
      PoolAdds(s, t, symbols[..], g, paths, contexts, holes, c, v, at, link, lo, hi);
      contexts := Inserted(contexts, paths[c], v);
      paths := paths + [paths[c] + [v]];
      g := GrownShape(g, c, v, update, lo, hi);
    }

    method CountSymbol(c: nat, v: Byte, update: nat, node: nat, before: nat,
                       ghost s: seq<Symbol>, ghost holes: set<int>) returns (under: nat, seen: nat)
      requires symbols.Length == POOL == |s| && nextSymbol == |paths| <= POOL && AllFit(symbols[..])
      requires PoolOk(s, g, paths, contexts) && ParentsOk(s, paths, holes)
      requires c < |paths| && update == Delta(paths[c])
      requires Sum(g.counts[c], 0, 256) + update < 0x10000 && g.counts[c][v] + update < 0x100
      requires WalkingAt(s, symbols[..], g, c, v, update, node, before) && s[node].value == v
      modifies this, symbols
      ensures seen == old(g).counts[c][v] > 0 && under == Sum(old(g).counts[c], 0, v)
      ensures Valid(holes)
      ensures Inserts(old(paths), old(contexts), c, v, true, paths, contexts, node)
    {
      WalkHit(s, symbols[..], g, c, v, update, node, before);
      seen := symbols[node].count;
      under := before + symbols[node].under - symbols[node].count;
      Store(node, symbols[node].(under := symbols[node].under + update, count := symbols[node].count + update));
      PoolCounts(s, symbols[..], g, paths, contexts, holes, c, v, node);
      contexts := Inserted(contexts, paths[c], v);
      g := Counted(g, c, v, update);
    }

    /** ENET_CONTEXT_ENCODE, stated over the tree. */
    method TreeEncode(c: nat, v: Byte, update: nat, minimum: nat, ghost holes: set<int>)
      returns (symbol: nat, under: nat, count: nat)
      requires Valid(holes) && c < nextSymbol < POOL
      requires update == Delta(paths[c]) && minimum == Minimum(paths[c])
      requires Sum(g.counts[c], 0, 256) + update < 0x10000 && g.counts[c][v] + update < 0x100
      modifies this, symbols
      ensures Valid(if old(g).counts[c][v] > 0 then holes else holes + {symbol})
      ensures Inserts(old(paths), old(contexts), c, v, old(g).counts[c][v] > 0, paths, contexts, symbol)
      ensures old(g).counts[c][v] > 0 || symbols[symbol].parent == 0
      ensures under == v * minimum + Sum(old(g).counts[c], 0, v) && count == minimum + old(g).counts[c][v]
    {
      hide TreeOk, Inserts, EmptyBranch, Walked, Above, PathOk, SlotOk, KnownOk, Distinct, ParentsOk, Sum;
      ghost var s := symbols[..];
      under := v * minimum;
      count := minimum;
      if symbols[c].symbols == 0 {
        EmptyContext(s, g, c, v, update);
        symbol := AddSymbol(c, v, update, c, FromContext, s, -1, 256, holes);
      } else {
        var node, before := Walk(c, v, update);
        ghost var pl := g.place[node];
        if v < symbols[node].value {
          WalkLeftEnd(s, symbols[..], g, c, v, update, node, before);
          under := under + before;
          Store(node, symbols[node].(under := symbols[node].under + update));
          symbol := AddSymbol(c, v, update, node, FromLeft, s, pl.lo, s[node].value, holes);
        } else if v > symbols[node].value {
          WalkRightEnd(s, symbols[..], g, c, v, update, node, before);
          under := under + before + symbols[node].under;
          symbol := AddSymbol(c, v, update, node, FromRight, s, s[node].value, pl.hi, holes);
        } else {
          var lower, seen := CountSymbol(c, v, update, node, before, s, holes);
          under, count, symbol := under + lower, count + seen, node;
        }
      }
    }

    /** The loop of ENET_CONTEXT_DECODE up to the node where it stops; code lies in v's part of the context. */
    method DecodeWalk(c: nat, code: nat, update: nat, minimum: nat, ghost v: Byte)
      returns (node: nat, under: nat, after: nat, before: nat)
      requires TreeOk(symbols[..], g) && AllFit(symbols[..])
      requires c < |g.place| == |g.counts| <= symbols.Length && symbols[c].symbols != 0
      requires Sum(g.counts[c], 0, 256) + update < 0x10000 && minimum <= 1
      requires var b := g.counts[c];
        v * minimum + Sum(b, 0, v) <= code < v * minimum + Sum(b, 0, v) + b[v] + minimum
      modifies symbols
      ensures AllFit(symbols[..])
      ensures WalkingAt(old(symbols[..]), symbols[..], g, c, v, update, node, under) == true
      ensures before <= after == Sum(g.counts[c], 0, symbols[node].value + 1) + (symbols[node].value + 1) * minimum
      ensures after - before == Sum(g.counts[c], 0, symbols[node].value) + symbols[node].value * minimum
      ensures code >= after <==> v > symbols[node].value
      ensures code < after - before <==> v < symbols[node].value
      ensures v < symbols[node].value ==> symbols[node].left == 0
      ensures v > symbols[node].value ==> symbols[node].right == 0
    {
      hide TreeOk, Above, Raised, Inside, Sum;
      ghost var s := symbols[..];
      WalkStart(s, g, c, v, update);
      node := c + symbols[c].symbols;
      under := 0;
      while true
        invariant AllFit(symbols[..])
        invariant WalkingAt(s, symbols[..], g, c, v, update, node, under) == true
        decreases g.place[node].hi - g.place[node].lo
      {
        after := under + symbols[node].under + (symbols[node].value + 1) * minimum;
        before := symbols[node].count + minimum;
        WalkCode(s, symbols[..], g, c, v, update, node, under, minimum, code, after, before);
        if code >= after && symbols[node].right != 0 {
          WalkRight(s, symbols[..], g, c, v, update, node, under);
          under := under + symbols[node].under;
          node := node + symbols[node].right;
        } else if code < after - before && symbols[node].left != 0 {
          WalkLeft(s, symbols[..], g, c, v, update, node, under);
          Store(node, symbols[node].(under := symbols[node].under + update));
          node := node + symbols[node].left;
        } else {
          break;
        }
      }
    }

    /** ENET_CONTEXT_TRY_DECODE: gives up where there is no symbol for code. */
    method TryDecode(c: nat, code: nat, update: nat, ghost v: Byte, ghost holes: set<int>)
      returns (ok: bool, symbol: nat, value: Byte, under: nat, count: nat)
      requires Valid(holes) && c < nextSymbol < POOL && paths[c] != [] && update == Delta(paths[c])
      requires Sum(g.counts[c], 0, 256) + update < 0x10000 && g.counts[c][v] + update < 0x100
      requires Sum(g.counts[c], 0, v) <= code < Sum(g.counts[c], 0, v) + g.counts[c][v]
      modifies this, symbols
      ensures ok && value == v && Valid(holes)
      ensures Inserts(old(paths), old(contexts), c, v, true, paths, contexts, symbol)
      ensures under == Sum(old(g).counts[c], 0, v) && count == old(g).counts[c][v]
    {
      hide TreeOk, Inserts, EmptyBranch, Walked, Above, PathOk, SlotOk, KnownOk, Distinct, ParentsOk, Sum;
      ghost var s := symbols[..];
      ok, under, count, value, symbol := true, 0, 0, 0, 0;
      if symbols[c].symbols == 0 {
        EmptyContext(s, g, c, v, update);
        return false, symbol, value, under, count;
      }
      var node, lower, after, before := DecodeWalk(c, code, update, 0, v);
      if code >= after {
        WalkRightEnd(s, symbols[..], g, c, v, update, node, lower);
        return false, symbol, value, under, count;
      }
      if code < after - before {
        WalkLeftEnd(s, symbols[..], g, c, v, update, node, lower);
        return false, symbol, value, under, count;
      }
      value := symbols[node].value;
      under := after - before;
      var sum, seen := CountSymbol(c, value, update, node, lower, s, holes);
      count, symbol := count + seen, node;
    }

    /** ENET_CONTEXT_ROOT_DECODE: where there is no symbol for code, one is created. */
    method RootDecode(c: nat, code: nat, update: nat, ghost v: Byte, ghost holes: set<int>)
      returns (symbol: nat, value: Byte, under: nat, count: nat)
      requires Valid(holes) && c < nextSymbol < POOL && update == Delta(paths[c])
      requires Sum(g.counts[c], 0, 256) + update < 0x10000 && g.counts[c][v] + update < 0x100
      requires v + Sum(g.counts[c], 0, v) <= code < v + Sum(g.counts[c], 0, v) + g.counts[c][v] + SYMBOL_MINIMUM
      modifies this, symbols
      ensures value == v
      ensures Valid(if old(g).counts[c][v] > 0 then holes else holes + {symbol})
      ensures Inserts(old(paths), old(contexts), c, v, old(g).counts[c][v] > 0, paths, contexts, symbol)
      ensures old(g).counts[c][v] > 0 || symbols[symbol].parent == 0
      ensures under == v + Sum(old(g).counts[c], 0, v) && count == SYMBOL_MINIMUM + old(g).counts[c][v]
    {
      hide TreeOk, Inserts, EmptyBranch, Walked, Above, PathOk, SlotOk, KnownOk, Distinct, ParentsOk, Sum;
      ghost var s := symbols[..];
      count := SYMBOL_MINIMUM;
      if symbols[c].symbols == 0 {
        EmptyContext(s, g, c, v, update);
        value := code / SYMBOL_MINIMUM;
        under := code - code % SYMBOL_MINIMUM;
        symbol := AddSymbol(c, value, update, c, FromContext, s, -1, 256, holes);
        return;
      }
      var node, lower, after, before := DecodeWalk(c, code, update, SYMBOL_MINIMUM, v);
      ghost var pl, w := g.place[node], symbols[node].value;
      if code >= after {
        WalkRightEnd(s, symbols[..], g, c, v, update, node, lower);
        ValueAbove(g.counts[c], v, w, code, after);
        value := symbols[node].value + 1 + (code - after) / SYMBOL_MINIMUM;
        under := code - (code - after) % SYMBOL_MINIMUM;
        symbol := AddSymbol(c, value, update, node, FromRight, s, w, pl.hi, holes);
      } else if code < after - before {
        WalkLeftEnd(s, symbols[..], g, c, v, update, node, lower);
        LeftEndSum(s, symbols[..], g, c, v, update, node, lower);
        ValueBelow(g.counts[c], v, w, code, after - before);
        Store(node, symbols[node].(under := symbols[node].under + update));
        value := symbols[node].value - 1 - (after - before - code - 1) / SYMBOL_MINIMUM;
        under := code - (after - before - code - 1) % SYMBOL_MINIMUM;
        symbol := AddSymbol(c, value, update, node, FromLeft, s, pl.lo, w, holes);
      } else {
        value := symbols[node].value;
        under := after - before;
        var sum, seen := CountSymbol(c, value, update, node, lower, s, holes);
        count, symbol := count + seen, node;
      }
    }

    /** ENET_CONTEXT_ENCODE: v's occurrences in context c grow, and those before and of v are returned. */
    method ContextEncode(c: nat, v: Byte, update: nat, minimum: nat, ghost holes: set<int>)
      returns (symbol: nat, under: nat, count: nat)
      requires Valid(holes) && c < nextSymbol < POOL
      requires update == Delta(paths[c]) && minimum == Minimum(paths[c])
      requires paths[c] in contexts && GoodContext(paths[c], contexts[paths[c]])
      modifies this, symbols
      ensures var b := old(contexts[paths[c]]);
        && Valid(if b.counts[v] > 0 then holes else holes + {symbol})
        && Inserts(old(paths), old(contexts), c, v, b.counts[v] > 0, paths, contexts, symbol)
        && under == v * minimum + Sum(b.counts, 0, v) && count == minimum + b.counts[v]
        && symbols[c].escapes == b.escapes && symbols[c].total == b.total
        && (b.counts[v] > 0 || symbols[symbol].parent == 0)
    {
      ghost var p, b := paths[c], contexts[paths[c]];
      assert SlotOk(symbols[..], g, paths, contexts, c);
      GrowsWithin(p, b, v);
      symbol, under, count := TreeEncode(c, v, update, minimum, holes);
      assert SlotOk(symbols[..], g, paths, contexts, c);
    }

    /** The loop body of enet_symbol_rescale: one node and, through it, its left subtree. */
    method RescaleNode(node: nat, ghost s: seq<Symbol>, ghost shape: Shape)
      requires TreeOk(s, shape) && 1 <= node < |shape.place| && symbols.Length == |s| && AllFit(symbols[..])
      requires symbols[node] == s[node] && NodeOk(s, shape, node)
      requires Sum(shape.counts[shape.place[node].own], 0, 256) < 0x10000
      requires s[node].left != 0 ==>
        Below(s, symbols[..][node := Begun(s[node])], shape, shape.place[node + s[node].left]) == true
      modifies symbols
      ensures AllFit(symbols[..])
      ensures NodeRescaled(s, old(symbols[..]), symbols[..], shape, node) == true
      decreases shape.place[node].hi - shape.place[node].lo, 0
    {
      ghost var t := symbols[..];
      Store(node, symbols[node].(count := symbols[node].count - symbols[node].count / 2));
      Store(node, symbols[node].(under := symbols[node].count));
      assert symbols[..] == t[node := Begun(s[node])];
      if symbols[node].left != 0 {
        var left := node + symbols[node].left;
        assert left == node + s[node].left;
        assert shape.place[left] == shape.place[node].(hi := s[node].value) && NodeOk(s, shape, left);
        var below := SymbolRescale(left, s, shape);
        NodeDone(s, t, symbols[..], shape, node, below);
        NodeFits(s, shape, node, below);
        Store(node, symbols[node].(under := symbols[node].under + below));
      } else {
        LeafDone(s, t, shape, node);
      }
    }

    /** enet_symbol_rescale */
    method SymbolRescale(start: nat, ghost s: seq<Symbol>, ghost shape: Shape) returns (total: nat)
      requires TreeOk(s, shape) && 1 <= start < |shape.place| == |shape.counts| <= symbols.Length == |s| && AllFit(symbols[..])
      requires Below(s, symbols[..], shape, shape.place[start]) == true
      requires NodeOk(s, shape, start) && Sum(shape.counts[shape.place[start].own], 0, 256) < 0x10000
      modifies symbols
      ensures AllFit(symbols[..])
      ensures Rescaling(s, old(symbols[..]), symbols[..], shape, shape.place[start], Nowhere(shape.place[start])) == true
      ensures total == Sum(Halved(shape.counts[shape.place[start].own]), shape.place[start].lo + 1, shape.place[start].hi)
      decreases shape.place[start].hi - shape.place[start].lo, 1
    {
      hide TreeOk, NodeRescaled, Below, Rescaling, Halved, Sum;
      ghost var t0 := symbols[..];
      ghost var pl := shape.place[start];
      RescaleStart(s, t0, shape, start);
      total := 0;
      var node: nat := start;
      while true
        invariant AllFit(symbols[..])
        invariant RescalingAt(s, t0, symbols[..], shape, pl, node, total) == true
        decreases shape.place[node].hi - shape.place[node].lo
      {
        ghost var t := symbols[..];
        RescaleEnter(s, t0, t, shape, pl, node, total);
        RescaleNode(node, s, shape);
        RescaleStep(s, t0, t, symbols[..], shape, pl, node, total);
        total := total + symbols[node].under;
        if symbols[node].right == 0 { break; }
        node := node + symbols[node].right;
      }
    }

    /** Writes the escapes and total of context c. */
    method SetHeader(c: nat, escapes: nat, total: nat, ghost holes: set<int>)
      requires Valid(holes) && c < nextSymbol && escapes < 0x10000 && total < 0x10000
      modifies symbols, `contexts
      ensures paths[c] in old(contexts) && contexts == WithHeader(old(contexts), paths[c], escapes, total)
      ensures symbols[..] == old(symbols[..])[c := old(symbols[c]).(escapes := escapes, total := total)]
      ensures Valid(holes)
    {
      ghost var s := symbols[..];
      Store(c, symbols[c].(escapes := escapes, total := total));
      PoolHeader(s, symbols[..], g, paths, contexts, c);
      contexts := WithHeader(contexts, paths[c], escapes, total);
    }

    /** The tree of context c, if there is one, through enet_symbol_rescale. */
    method HalveSymbols(c: nat, ghost holes: set<int>) returns (total: nat)
      requires Valid(holes) && c < nextSymbol && Sum(g.counts[c], 0, 256) < 0x10000
      modifies symbols, `contexts, `g
      ensures Valid(holes)
      ensures paths[c] in old(contexts) && contexts == WithHalves(old(contexts), paths[c])
      ensures SameHeaders(old(symbols[..]), symbols[..], nextSymbol)
      ensures total == Sum(Halved(old(g).counts[c]), 0, 256)
    {
      hide ParentsOk, PathOk, SlotOk, KnownOk, Distinct, Rescaling;
      ghost var s := symbols[..];
      if symbols[c].symbols == 0 {
        PoolHalvesNothing(s, g, paths, contexts, c);
        return 0;
      }
      var tree := c + symbols[c].symbols;
      assert ContextOk(s, g, c) && NodeOk(s, g, tree);
      assert g.place[tree] == Place(c, -1, 256);
      total := SymbolRescale(tree, s, g);
      PoolHalves(s, symbols[..], g, paths, contexts, holes, c);
      contexts := WithHalves(contexts, paths[c]);
      g := HalvedAt(g, c);
    }

    /** ENET_CONTEXT_RESCALE */
    method ContextRescale(c: nat, minimum: nat, ghost holes: set<int>)
      requires Valid(holes) && c < nextSymbol && minimum == Minimum(paths[c])
      requires Sum(g.counts[c], 0, 256) + symbols[c].escapes + 256 * minimum < 0x10000
      modifies symbols, `contexts, `g
      ensures Valid(holes)
      ensures paths[c] in old(contexts)
      ensures contexts == old(contexts)[paths[c] := Rescaled(paths[c], old(contexts)[paths[c]])]
    {
      hide TreeOk, ParentsOk, PathOk, KnownOk, Distinct;
      ghost var m, p := contexts, paths[c];
      SumHalved(g.counts[c], 0, 256);
      assert SlotOk(symbols[..], g, paths, contexts, c);
      var total := HalveSymbols(c, holes);
      var escapes := symbols[c].escapes - symbols[c].escapes / 2;
      total := total + escapes + 256 * minimum;
      HeaderAfterHalves(m, p, escapes, total);
      SetHeader(c, escapes, total, holes);
      assert contexts == m[p := Rescaled(p, m[p])];
    }

    /** Escapes and total grow with a coded symbol; count is what it was coded with. */
    method GrowHeader(c: nat, count: nat, update: nat, minimum: nat,
                      ghost v: Byte, ghost before: Context, ghost holes: set<int>)
      requires Valid(holes) && c < nextSymbol && update == Delta(paths[c]) && minimum == Minimum(paths[c])
      requires GoodContext(paths[c], before) && count == before.counts[v] + minimum
      requires paths[c] in contexts && contexts[paths[c]] == before.(counts := Grown(paths[c], before, v).counts)
      modifies symbols, `contexts
      ensures Valid(holes)
      ensures contexts == old(contexts)[paths[c] := Grown(paths[c], before, v)]
    {
      hide TreeOk, ParentsOk, PathOk, KnownOk, Distinct;
      GrowsWithin(paths[c], before, v);
      assert SlotOk(symbols[..], g, paths, contexts, c);
      var escapes, total := symbols[c].escapes, symbols[c].total;
      if count <= 0 {
        escapes := escapes + SUBCONTEXT_ESCAPE_DELTA;
        total := total + SUBCONTEXT_ESCAPE_DELTA;
      }
      total := total + update;
      HeaderGrows(contexts, paths[c], before, v, escapes, total);
      SetHeader(c, escapes, total, holes);
    }

    method RescaleIfCrowded(c: nat, count: nat, update: nat, minimum: nat, ghost holes: set<int>)
      requires Valid(holes) && c < nextSymbol && update == Delta(paths[c]) && minimum == Minimum(paths[c])
      requires paths[c] in contexts && Balanced(paths[c], contexts[paths[c]]) && contexts[paths[c]].total < BOTTOM
      modifies symbols, `contexts, `g
      ensures Valid(holes)
      ensures var p, d := paths[c], old(contexts)[paths[c]];
        contexts == if Crowded(p, count, d.total) then old(contexts)[p := Rescaled(p, d)] else old(contexts)
    {
      assert SlotOk(symbols[..], g, paths, contexts, c);
      if count > 0xFF - 2 * update + minimum || symbols[c].total > BOTTOM - 0x100 {
        ContextRescale(c, minimum, holes);
      }
    }

    /** What follows the coding of v in context c: escapes and total grow, and the context may be rescaled. */
    method ContextUpdate(c: nat, count: nat, update: nat, minimum: nat,
                         ghost v: Byte, ghost before: Context, ghost holes: set<int>)
      requires Valid(holes) && c < nextSymbol && update == Delta(paths[c]) && minimum == Minimum(paths[c])
      requires GoodContext(paths[c], before) && count == before.counts[v] + minimum
      requires paths[c] in contexts && contexts[paths[c]] == before.(counts := Grown(paths[c], before, v).counts)
      modifies symbols, `contexts, `g
      ensures Valid(holes)
      ensures contexts == old(contexts)[paths[c] := Bumped(paths[c], before, v)]
    {
      hide TreeOk, ParentsOk, PathOk, KnownOk, Distinct, SlotOk;
      GrowsWithin(paths[c], before, v);
      Overwritten(contexts, paths[c], Grown(paths[c], before, v), Bumped(paths[c], before, v));
      GrowHeader(c, count, update, minimum, v, before, holes);
      RescaleIfCrowded(c, count, update, minimum, holes);
    }

    /** Fills in the parent link of a new symbol. */
    method SetParent(i: nat, parent: nat, ghost holes: set<int>)
      requires Valid(holes) && 1 <= i < nextSymbol && parent < nextSymbol
      requires paths[i] != [] && paths[parent] == paths[i][1..]
      modifies symbols
      ensures Valid(holes - {i})
      ensures symbols[..] == old(symbols[..])[i := old(symbols[i]).(parent := parent)]
    {
      ghost var s := symbols[..];
      Store(i, symbols[i].(parent := parent));
      PoolHeader(s, symbols[..], g, paths, contexts, i);
      assert SlotOk(s, g, paths, contexts, i);
      assert WithHeader(contexts, paths[i], s[i].escapes, s[i].total) == contexts;
    }
  }

  lemma Fitting(rc: RangeCoder, holes: set<int>)
    requires rc.Valid(holes)
    ensures AllFit(rc.symbols[..])
  {
  }

  lemma FewerHoles(rc: RangeCoder, holes: set<int>, more: set<int>)
    requires rc.Valid(holes) && holes <= more
    ensures rc.Valid(more)
  {
    assert ParentsOk(rc.symbols[..], rc.paths, more);
  }

  /** A context has one slot. */
  lemma OneSlot(rc: RangeCoder, holes: set<int>, i: nat, j: nat)
    requires rc.Valid(holes) && i < rc.nextSymbol && j < rc.nextSymbol && rc.paths[i] == rc.paths[j]
    ensures i == j
  {
  }
}
