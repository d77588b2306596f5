/** How the pool of symbols stands for the contexts of the model. */
module PoolRelation {
  import opened Bytes
  import opened Counting
  import opened SymbolTree
  import opened PpmModel

  ghost predicate PathOk(s: seq<Symbol>, g: Shape, paths: seq<Path>, i: nat)
    requires |paths| == |g.place| <= |s| && 1 <= i < |paths|
  {
    g.place[i].own < i && paths[i] == paths[g.place[i].own] + [s[i].value]
  }

  ghost predicate SlotOk(s: seq<Symbol>, g: Shape, paths: seq<Path>, m: Contexts, i: nat)
    requires |paths| == |g.counts| <= |s| && i < |paths|
  {
    paths[i] in m && m[paths[i]] == Context(g.counts[i], s[i].escapes, s[i].total)
  }

  ghost predicate Distinct(paths: seq<Path>) {
    forall i, j :: 0 <= i < j < |paths| ==> paths[i] != paths[j]
  }

  ghost predicate KnownOk(g: Shape, paths: seq<Path>, m: Contexts, i: nat, v: Byte)
    requires |paths| == |g.counts| && i < |paths|
  {
    g.counts[i][v] > 0 ==> paths[i] + [v] in m
  }

  /** Slot i of the pool s is the context, or symbol, paths[i] of m. */
  ghost predicate PoolOk(s: seq<Symbol>, g: Shape, paths: seq<Path>, m: Contexts) {
    && TreeOk(s, g)
    && |paths| == |g.place| == |g.counts| == |m| && |paths| <= |s|
    && paths[0] == []
    && (forall i :: 1 <= i < |paths| ==> PathOk(s, g, paths, i))
    && Distinct(paths)
    && (forall i :: 0 <= i < |paths| ==> SlotOk(s, g, paths, m, i))
    && (forall p :: p in m ==> p in paths)
    && (forall i, v: Byte :: 0 <= i < |paths| ==> KnownOk(g, paths, m, i, v))
  }

  /** Every slot but the holes links to the context of the shorter path. */
  ghost predicate ParentsOk(s: seq<Symbol>, paths: seq<Path>, holes: set<int>)
  {
    |paths| <= |s| && forall i :: 1 <= i < |paths| && i !in holes ==>
      paths[i] != [] && s[i].parent < |paths| && paths[s[i].parent] == paths[i][1..]
  }

  ghost predicate SameHeaders(s: seq<Symbol>, t: seq<Symbol>, n: nat) {
    && n <= |s| && |t| == |s|
    && forall i :: 0 <= i < n ==>
         t[i].value == s[i].value && t[i].escapes == s[i].escapes && t[i].total == s[i].total && t[i].parent == s[i].parent
  }

  lemma PathUnknown(s: seq<Symbol>, g: Shape, paths: seq<Path>, m: Contexts, c: nat, v: Byte)
    requires PoolOk(s, g, paths, m) && c < |paths|
    ensures g.counts[c][v] > 0 <==> paths[c] + [v] in m
  {
    assert KnownOk(g, paths, m, c, v);
    var q := paths[c] + [v];
    if q in m {
      assert q in paths;
      var j :| 0 <= j < |paths| && paths[j] == q;
      assert PathOk(s, g, paths, j) && NodeOk(s, g, j);
      var o := g.place[j].own;
      assert paths[o] == (paths[o] + [s[j].value])[..|q| - 1] == paths[c];
      assert s[j].value == q[|q| - 1] == v;
      assert o == c;
    }
  }

  /** The model after the counts of p alone have learnt v. */
  function Inserted(m: Contexts, p: Path, v: Byte): Contexts
    requires p in m
  {
    var m' := m[p := m[p].(counts := m[p].counts[v := m[p].counts[v] + Delta(p)])];
    if p + [v] in m then m' else m'[p + [v] := Fresh()]
  }

  lemma PoolHit(s: seq<Symbol>, t: seq<Symbol>, g: Shape, paths: seq<Path>, m: Contexts, c: nat, v: Byte)
    requires PoolOk(s, g, paths, m) && c < |paths| && g.counts[c][v] > 0
    requires SameHeaders(s, t, |paths|) && TreeOk(t, Counted(g, c, v, Delta(paths[c])))
    ensures paths[c] in m
    ensures PoolOk(t, Counted(g, c, v, Delta(paths[c])), paths, Inserted(m, paths[c], v))
  {
    var h := Counted(g, c, v, Delta(paths[c]));
    assert SlotOk(s, g, paths, m, c);
    PathUnknown(s, g, paths, m, c, v);
    var m' := Inserted(m, paths[c], v);
    assert m'.Keys == m.Keys;
    forall i | 1 <= i < |paths| ensures PathOk(t, h, paths, i) { assert PathOk(s, g, paths, i); }
    forall i | 0 <= i < |paths| ensures SlotOk(t, h, paths, m', i) { assert SlotOk(s, g, paths, m, i); }
    forall i, w: Byte | 0 <= i < |paths| ensures KnownOk(h, paths, m', i, w) { assert KnownOk(g, paths, m, i, w); }
  }

  /** What a new symbol for v under context c needs. */
  ghost predicate PoolGrows(s: seq<Symbol>, t: seq<Symbol>, g: Shape, paths: seq<Path>, m: Contexts,
                            c: nat, v: Byte, lo: int, hi: int) {
    && PoolOk(s, g, paths, m) && c < |paths| < |s| && g.counts[c][v] == 0
    && SameHeaders(s, t, |paths|) && t[|paths|] == NewSymbol(v, Delta(paths[c]))
    && TreeOk(t, GrownShape(g, c, v, Delta(paths[c]), lo, hi))
    && paths[c] in m && paths[c] + [v] !in m
  }

  lemma GrownPaths(s: seq<Symbol>, t: seq<Symbol>, g: Shape, paths: seq<Path>, m: Contexts,
                   c: nat, v: Byte, lo: int, hi: int, i: nat)
    requires PoolGrows(s, t, g, paths, m, c, v, lo, hi) && i <= |paths|
    ensures var h, q := GrownShape(g, c, v, Delta(paths[c]), lo, hi), paths + [paths[c] + [v]];
      && (i >= 1 ==> PathOk(t, h, q, i))
      && SlotOk(t, h, q, Inserted(m, paths[c], v), i)
  {
    if i < |paths| {
      assert i >= 1 ==> PathOk(s, g, paths, i);
      assert SlotOk(s, g, paths, m, i);
      assert SlotOk(s, g, paths, m, c);
      assert i != c ==> paths[i] != paths[c];
    } 
  }

  lemma PoolGrow(s: seq<Symbol>, t: seq<Symbol>, g: Shape, paths: seq<Path>, m: Contexts, c: nat, v: Byte, lo: int, hi: int)
    requires PoolGrows(s, t, g, paths, m, c, v, lo, hi)
    ensures PoolOk(t, GrownShape(g, c, v, Delta(paths[c]), lo, hi), paths + [paths[c] + [v]], Inserted(m, paths[c], v))
  {
    var h, q, m' := GrownShape(g, c, v, Delta(paths[c]), lo, hi), paths + [paths[c] + [v]], Inserted(m, paths[c], v);
    forall i | 1 <= i < |q| ensures PathOk(t, h, q, i) { GrownPaths(s, t, g, paths, m, c, v, lo, hi, i); }
    forall i | 0 <= i < |q| ensures SlotOk(t, h, q, m', i) { GrownPaths(s, t, g, paths, m, c, v, lo, hi, i); }
    forall i | 0 <= i < |paths| ensures paths[i] != paths[c] + [v] { assert SlotOk(s, g, paths, m, i); }
    assert q[|paths|] == paths[c] + [v];
    forall p | p in m' ensures p in q {
      if p in m { var k :| 0 <= k < |paths| && paths[k] == p; assert q[k] == p; }
    }
    forall i, w: Byte | 0 <= i < |q| ensures KnownOk(h, q, m', i, w) {
      if i < |paths| { assert KnownOk(g, paths, m, i, w); }
    }
  }

  /** t differs from s in the header of slot i only: the tree is the same. */
  ghost predicate HeaderChange(s: seq<Symbol>, t: seq<Symbol>, i: nat) {
    && i < |s| == |t| && t == s[i := t[i]]
    && t[i] == s[i].(escapes := t[i].escapes, total := t[i].total, parent := t[i].parent)
  }

  lemma HeaderKeepsTree(s: seq<Symbol>, t: seq<Symbol>, g: Shape, i: nat)
    requires TreeOk(s, g) && HeaderChange(s, t, i)
    ensures TreeOk(t, g)
  {
    forall j | 0 <= j < |g.place| ensures ContextOk(t, g, j) { assert ContextOk(s, g, j); }
    forall j | 1 <= j < |g.place| ensures NodeOk(t, g, j) { assert NodeOk(s, g, j); }
    forall j, k | 1 <= j < |g.place| && 1 <= k < |g.place| && j != k ensures Apart(t, g, j, k) { assert Apart(s, g, j, k); }
  }

  lemma PoolHeader(s: seq<Symbol>, t: seq<Symbol>, g: Shape, paths: seq<Path>, m: Contexts, c: nat)
    requires PoolOk(s, g, paths, m) && c < |paths| && HeaderChange(s, t, c)
    ensures paths[c] in m && m[paths[c]] == Context(g.counts[c], s[c].escapes, s[c].total)
    ensures PoolOk(t, g, paths, WithHeader(m, paths[c], t[c].escapes, t[c].total))
  {
    HeaderKeepsTree(s, t, g, c);
    assert SlotOk(s, g, paths, m, c);
    var m' := WithHeader(m, paths[c], t[c].escapes, t[c].total);
    forall i | 1 <= i < |paths| ensures PathOk(t, g, paths, i) { assert PathOk(s, g, paths, i); }
    forall i | 0 <= i < |paths| ensures SlotOk(t, g, paths, m', i) { assert SlotOk(s, g, paths, m, i); }
    forall i, w: Byte | 0 <= i < |paths| ensures KnownOk(g, paths, m', i, w) { assert KnownOk(g, paths, m, i, w); }
  }

  lemma PoolRescaled(s: seq<Symbol>, t: seq<Symbol>, g: Shape, paths: seq<Path>, m: Contexts, c: nat)
    requires PoolOk(s, g, paths, m) && c < |paths| && TreeRescaled(s, t, g, c)
    ensures paths[c] in m
    ensures SameHeaders(s, t, |paths|)
    ensures PoolOk(t, HalvedAt(g, c), paths, WithHalves(m, paths[c]))
  {
    RescaleKeepsTree(s, t, g, c);
    var h := HalvedAt(g, c);
    assert SlotOk(s, g, paths, m, c);
    var m' := WithHalves(m, paths[c]);
    forall i | 1 <= i < |paths| ensures PathOk(t, h, paths, i) { assert PathOk(s, g, paths, i); }
    forall i | 0 <= i < |paths| ensures SlotOk(t, h, paths, m', i) { assert SlotOk(s, g, paths, m, i); }
    forall i, w: Byte | 0 <= i < |paths| ensures KnownOk(h, paths, m', i, w) { assert KnownOk(g, paths, m, i, w); }
  }

  lemma GrewHeaders(s: seq<Symbol>, u: seq<Symbol>, g: Shape, c: nat, v: Byte, d: nat,
                    at: nat, link: Link, lo: int, hi: int)
    requires Grew(s, u, g, c, v, d, at, link, lo, hi)
    ensures SameHeaders(s, u, |g.place|)
  {
  }

  lemma ParentsGrow(s: seq<Symbol>, u: seq<Symbol>, paths: seq<Path>, holes: set<int>, p: Path)
    requires ParentsOk(s, paths, holes) && SameHeaders(s, u, |paths|) && |paths| < |s|
    ensures ParentsOk(u, paths + [p], holes + {|paths|})
  {
  }

  /** Hanging a new symbol into the empty branch a search ended at. */
  lemma PoolAdds(s: seq<Symbol>, t: seq<Symbol>, u: seq<Symbol>, g: Shape, paths: seq<Path>, m: Contexts, holes: set<int>,
                 c: nat, v: Byte, at: nat, link: Link, lo: int, hi: int)
    requires PoolOk(s, g, paths, m) && ParentsOk(s, paths, holes) && c < |paths| < |s|
    requires Walked(s, t, g, c, v, Delta(paths[c])) && EmptyBranch(s, g, c, v, at, link, lo, hi)
    requires u == t[|paths| := NewSymbol(v, Delta(paths[c]))][at := Linked(t[at], link, |paths| - at)]
    ensures paths[c] in m
    ensures PoolOk(u, GrownShape(g, c, v, Delta(paths[c]), lo, hi), paths + [paths[c] + [v]], Inserted(m, paths[c], v))
    ensures ParentsOk(u, paths + [paths[c] + [v]], holes + {|paths|})
    ensures SameHeaders(s, u, |paths|)
  {
    var d := Delta(paths[c]);
    GrewFrom(s, t, u, g, c, v, d, at, link, lo, hi);
    GrowKeepsTree(s, u, g, c, v, d, at, link, lo, hi);
    PathUnknown(s, g, paths, m, c, v);
    GrewHeaders(s, u, g, c, v, d, at, link, lo, hi);
    assert SlotOk(s, g, paths, m, c);
    PoolGrow(s, u, g, paths, m, c, v, lo, hi);
    ParentsGrow(s, u, paths, holes, paths[c] + [v]);
  }

  /** Counting one more occurrence of a symbol the context has. */
  lemma PoolCounts(s: seq<Symbol>, t: seq<Symbol>, g: Shape, paths: seq<Path>, m: Contexts, holes: set<int>,
                   c: nat, v: Byte, node: nat)
    requires PoolOk(s, g, paths, m) && ParentsOk(s, paths, holes) && c < |paths| && g.counts[c][v] > 0
    requires Walked(s, t, g, c, v, Delta(paths[c])) && TreeOk(t, Counted(g, c, v, Delta(paths[c])))
    requires 1 <= node < |paths| && g.place[node].own == c && s[node].value == v
    ensures paths[c] in m && paths[node] == paths[c] + [v]
    ensures PoolOk(t, Counted(g, c, v, Delta(paths[c])), paths, Inserted(m, paths[c], v))
    ensures ParentsOk(t, paths, holes) && SameHeaders(s, t, |paths|)
  {
    assert PathOk(s, g, paths, node) && SlotOk(s, g, paths, m, c);
    PoolHit(s, t, g, paths, m, c, v);
  }

  /** Context c has learnt v: the effect of ENET_CONTEXT_ENCODE on what the pool stands for. */
  ghost predicate Inserts(paths: seq<Path>, m: Contexts, c: nat, v: Byte, known: bool,
                          paths': seq<Path>, m': Contexts, symbol: nat) {
    && c < |paths| && paths[c] in m && symbol < |paths'|
    && paths' == (if known then paths else paths + [paths[c] + [v]])
    && (!known ==> symbol == |paths|)
    && m' == Inserted(m, paths[c], v)
    && paths'[symbol] == paths[c] + [v]
  }


  function WithHalves(m: Contexts, p: Path): Contexts
    requires p in m
  {
    m[p := m[p].(counts := Halved(m[p].counts))]
  }

  /** The whole tree of context c halved. */
  lemma PoolHalves(s: seq<Symbol>, t: seq<Symbol>, g: Shape, paths: seq<Path>, m: Contexts, holes: set<int>, c: nat)
    requires PoolOk(s, g, paths, m) && ParentsOk(s, paths, holes) && c < |paths|
    requires Rescaling(s, s, t, g, Place(c, -1, 256), Nowhere(Place(c, -1, 256))) == true
    ensures paths[c] in m && m[paths[c]].counts == g.counts[c]
    ensures PoolOk(t, HalvedAt(g, c), paths, WithHalves(m, paths[c]))
    ensures ParentsOk(t, paths, holes) && SameHeaders(s, t, |paths|)
  {
    PoolRescaled(s, t, g, paths, m, c);
    assert SlotOk(s, g, paths, m, c);
  }

  /** A context without symbols has nothing to halve. */
  lemma PoolHalvesNothing(s: seq<Symbol>, g: Shape, paths: seq<Path>, m: Contexts, c: nat)
    requires PoolOk(s, g, paths, m) && c < |paths| && s[c].symbols == 0
    ensures paths[c] in m && WithHalves(m, paths[c]) == m && HalvedAt(g, c) == g
    ensures Sum(Halved(g.counts[c]), 0, 256) == 0
  {
    assert SlotOk(s, g, paths, m, c) && ContextOk(s, g, c);
    assert Halved(g.counts[c]) == g.counts[c];
    SumZero(g.counts[c], 0, 256);
  }

  function WithHeader(m: Contexts, p: Path, escapes: nat, total: nat): Contexts
    requires p in m
  {
    m[p := m[p].(escapes := escapes, total := total)]
  }

  lemma HeaderAfterHalves(m: Contexts, p: Path, escapes: nat, total: nat)
    requires p in m && escapes == Half(m[p].escapes)
    requires total == Sum(Halved(m[p].counts), 0, 256) + escapes + 256 * Minimum(p)
    ensures WithHeader(WithHalves(m, p), p, escapes, total) == m[p := Rescaled(p, m[p])]
  {
  }

  lemma InsertedThenBumped(m: Contexts, p: Path, v: Byte)
    requires p in m
    ensures p in Inserted(m, p, v) && Inserted(m, p, v)[p] == m[p].(counts := Grown(p, m[p], v).counts)
    ensures Inserted(m, p, v)[p := Bumped(p, m[p], v)] == Touched(m, p, v)
  {
    assert p + [v] != p;
  }

  lemma HeaderGrows(m: Contexts, p: Path, before: Context, v: Byte, escapes: nat, total: nat)
    requires p in m && m[p] == before.(counts := Grown(p, before, v).counts)
    requires escapes == Grown(p, before, v).escapes && total == Grown(p, before, v).total
    ensures WithHeader(m, p, escapes, total) == m[p := Grown(p, before, v)]
  {
  }

  lemma Overwritten(m: Contexts, p: Path, c: Context, d: Context)
    ensures m[p := c][p := d] == m[p := d]
  {
  }

  function RootSlot(): Symbol {
    Symbol(0, 0, 0, 0, 0, 0, ESCAPE_MINIMUM, ESCAPE_MINIMUM + 256 * SYMBOL_MINIMUM, 0)
  }

  const RootShape := Shape([Place(0, -1, 256)], [NoCounts()])

  lemma PoolStarts(s: seq<Symbol>)
    requires |s| > 0 && s[0] == RootSlot()
    ensures PoolOk(s, RootShape, [[]], Initial().contexts) && ParentsOk(s, [[]], {})
  {
    var paths: seq<Path>, m := [[]], Initial().contexts;
    assert ContextOk(s, RootShape, 0);
    assert SlotOk(s, RootShape, paths, m, 0);
    assert m[[]] == Root();
    assert forall p :: p in m ==> p == [] && p in paths;
    forall i, v: Byte | 0 <= i < |paths| ensures KnownOk(RootShape, paths, m, i, v) {}
  }
}
