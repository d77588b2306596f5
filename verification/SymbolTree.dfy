
module SymbolTree {
  import opened Bytes
  import opened Counting

  datatype Symbol = Symbol(value: Byte, count: nat, under: nat, left: nat, right: nat,
                           symbols: nat, escapes: nat, total: nat, parent: nat)

  datatype Place = Place(own: nat, lo: int, hi: int)

  datatype Shape = Shape(place: seq<Place>, counts: seq<Counts>)

  ghost predicate NodeOk(s: seq<Symbol>, g: Shape, i: nat)
    requires |g.place| == |g.counts| <= |s|
    requires i < |g.place|
  {
    var pl := g.place[i];
    && pl.own < i
    && -1 <= pl.lo < s[i].value < pl.hi <= 256
    && var c := g.counts[pl.own];
    && 1 <= s[i].count == c[s[i].value]
    && s[i].under == Sum(c, pl.lo + 1, s[i].value + 1)
    && (if s[i].left == 0 then Zero(c, pl.lo + 1, s[i].value)
        else i + s[i].left < |g.place| && g.place[i + s[i].left] == Place(pl.own, pl.lo, s[i].value))
    && (if s[i].right == 0 then Zero(c, s[i].value + 1, pl.hi)
        else i + s[i].right < |g.place| && g.place[i + s[i].right] == Place(pl.own, s[i].value, pl.hi))
  }

  ghost predicate ContextOk(s: seq<Symbol>, g: Shape, i: nat)
    requires |g.place| == |g.counts| <= |s|
    requires i < |g.place|
  {
    && (if s[i].symbols == 0 then Zero(g.counts[i], 0, 256)
        else i + s[i].symbols < |g.place| && g.place[i + s[i].symbols] == Place(i, -1, 256))
  }

  predicate Contains(pl: Place, v: int) { pl.lo < v < pl.hi }

  ghost predicate Apart(s: seq<Symbol>, g: Shape, i: nat, j: nat)
    requires i < |g.place| <= |s| && j < |g.place|
  {
    g.place[i].own == g.place[j].own ==>
      !Contains(g.place[i], s[j].value) || !Contains(g.place[j], s[i].value)
  }

  ghost predicate TreeOk(s: seq<Symbol>, g: Shape)
  {
    && 0 < |g.place| == |g.counts| <= |s|
    && (forall i :: 0 <= i < |g.place| ==> ContextOk(s, g, i))
    && (forall i :: 1 <= i < |g.place| ==> NodeOk(s, g, i))
    && (forall i, j :: 1 <= i < |g.place| && 1 <= j < |g.place| && i != j ==> Apart(s, g, i, j))
  }

  function Raised(x: Symbol, pl: Place, c: nat, v: Byte, d: nat): Symbol {
    if pl.own == c && pl.lo < v <= x.value && v < pl.hi then
      x.(under := x.under + d, count := if x.value == v then x.count + d else x.count)
    else x
  }

  ghost predicate Inside(a: Place, b: Place) { a.own == b.own && b.lo <= a.lo && a.hi <= b.hi }

  /** Below a node, every other node of its context that can hold v is on v's side. */
  lemma Narrow(s: seq<Symbol>, g: Shape, i: nat, j: nat, v: int)
    requires TreeOk(s, g) && 1 <= i < |g.place| && 1 <= j < |g.place| && i != j
    requires Inside(g.place[j], g.place[i]) && Contains(g.place[j], v)
    ensures v != s[i].value
    ensures v < s[i].value ==> s[i].left != 0 && g.place[j].hi <= s[i].value
    ensures v > s[i].value ==> s[i].right != 0 && g.place[j].lo >= s[i].value
  {
    assert NodeOk(s, g, j) && NodeOk(s, g, i) && Apart(s, g, i, j);
  }

  /** What a C record can hold: 8 bits of value and count, 16 bits elsewhere. */
  predicate Fits(x: Symbol) {
    && x.count < 0x100 && x.under < 0x10000 && x.left < 0x10000 && x.right < 0x10000
    && x.symbols < 0x10000 && x.escapes < 0x10000 && x.total < 0x10000 && x.parent < 0x10000
  }

  /** Every other node of c whose range covers v has its branch on v's side, and (lo, hi) lies in that branch. */
  ghost predicate Above(s: seq<Symbol>, g: Shape, c: nat, v: Byte, lo: int, hi: int, node: nat, inner: bool)
    requires |g.place| <= |s|
  {
    forall j :: 1 <= j < |g.place| && j != node && g.place[j].own == c && Contains(g.place[j], v) &&
                !(inner && Inside(g.place[j], Place(c, lo, hi))) ==>
      && s[j].value != v
      && (v < s[j].value ==> s[j].left != 0 && hi <= s[j].value)
      && (v > s[j].value ==> s[j].right != 0 && s[j].value <= lo)
  }

  /** t is s after the search for v has come down to node from context c. */
  ghost predicate Walking(s: seq<Symbol>, t: seq<Symbol>, g: Shape, c: nat, v: Byte, d: nat, node: nat) {
    && |t| == |s| && 1 <= node < |g.place| <= |s| && c < |g.counts|
    && g.place[node].own == c && Contains(g.place[node], v)
    && t[node] == s[node]
    && Above(s, g, c, v, g.place[node].lo, g.place[node].hi, node, true)
    && (forall j :: 0 <= j < |s| && !(1 <= j < |g.place|) ==> t[j] == s[j])
    && (forall j :: 1 <= j < |g.place| ==>
      t[j] == if Inside(g.place[j], g.place[node]) then s[j] else Raised(s[j], g.place[j], c, v, d))
  }

  /** t is s after every node whose under covers v has gained d, and the node of v too. */
  ghost predicate Walked(s: seq<Symbol>, t: seq<Symbol>, g: Shape, c: nat, v: Byte, d: nat)
    requires |g.place| <= |s|
  {
    && |t| == |s|
    && (forall j :: 0 <= j < |s| && !(1 <= j < |g.place|) ==> t[j] == s[j])
    && (forall j :: 1 <= j < |g.place| ==> t[j] == Raised(s[j], g.place[j], c, v, d))
  }

  /** Walking, with the counts to the left of node's range summed up. */
  ghost predicate WalkingAt(s: seq<Symbol>, t: seq<Symbol>, g: Shape, c: nat, v: Byte, d: nat, node: nat, under: nat) {
    && Walking(s, t, g, c, v, d, node)
    && -1 <= g.place[node].lo < 256 && under == Sum(g.counts[c], 0, g.place[node].lo + 1)
  }

  lemma WalkStart(s: seq<Symbol>, g: Shape, c: nat, v: Byte, d: nat)
    requires TreeOk(s, g) && c < |g.place| && s[c].symbols != 0
    ensures WalkingAt(s, s, g, c, v, d, c + s[c].symbols, 0)
  {
    assert ContextOk(s, g, c);
    forall j | 1 <= j < |g.place| ensures -1 <= g.place[j].lo && g.place[j].hi <= 256 {
      assert NodeOk(s, g, j);
    }
  }

  function Left(x: Symbol, d: nat): Symbol { x.(under := x.under + d) }

  lemma WalkLeft(s: seq<Symbol>, t: seq<Symbol>, g: Shape, c: nat, v: Byte, d: nat, node: nat, under: nat)
    requires TreeOk(s, g) && WalkingAt(s, t, g, c, v, d, node, under)
    requires v < s[node].value && s[node].left != 0
    ensures t[node] == s[node] && s[node].under <= Sum(g.counts[c], 0, 256)
    ensures WalkingAt(s, t[node := Left(s[node], d)], g, c, v, d, node + s[node].left, under)
    ensures g.place[node + s[node].left].hi - g.place[node + s[node].left].lo < g.place[node].hi - g.place[node].lo
  {
    UnderFits(s, g, node);
    forall j | 1 <= j < |g.place| && j != node && Inside(g.place[j], g.place[node]) && Contains(g.place[j], v)
      ensures g.place[j].hi <= s[node].value
    {
      Narrow(s, g, node, j, v);
    }
  }

  lemma WalkLeftEnd(s: seq<Symbol>, t: seq<Symbol>, g: Shape, c: nat, v: Byte, d: nat, node: nat, under: nat)
    requires TreeOk(s, g) && WalkingAt(s, t, g, c, v, d, node, under)
    requires v < s[node].value && s[node].left == 0
    ensures t[node] == s[node] && s[node].under <= Sum(g.counts[c], 0, 256)
    ensures Walked(s, t[node := Left(s[node], d)], g, c, v, d)
    ensures EmptyBranch(s, g, c, v, node, FromLeft, g.place[node].lo, s[node].value)
    ensures under == Sum(g.counts[c], 0, v)
  {
    UnderFits(s, g, node);
    LeftEndBelow(s, t, g, c, v, d, node, under);
    forall j | 1 <= j < |g.place| && j != node && Inside(g.place[j], g.place[node]) && Contains(g.place[j], v)
      ensures false
    {
      Narrow(s, g, node, j, v);
    }
  }

  lemma LeftEndBelow(s: seq<Symbol>, t: seq<Symbol>, g: Shape, c: nat, v: Byte, d: nat, node: nat, under: nat)
    requires TreeOk(s, g) && WalkingAt(s, t, g, c, v, d, node, under)
    requires v < s[node].value && s[node].left == 0
    ensures under == Sum(g.counts[c], 0, v)
    ensures Zero(g.counts[c], g.place[node].lo + 1, s[node].value)
  {
    assert NodeOk(s, g, node);
    SumSplit(g.counts[c], 0, g.place[node].lo + 1, v);
    SumZero(g.counts[c], g.place[node].lo + 1, v);
  }

  lemma LeftEndSum(s: seq<Symbol>, t: seq<Symbol>, g: Shape, c: nat, v: Byte, d: nat, node: nat, under: nat)
    requires TreeOk(s, g) && WalkingAt(s, t, g, c, v, d, node, under) && s[node].left == 0
    ensures under == Sum(g.counts[c], 0, s[node].value)
  {
    assert NodeOk(s, g, node);
    SumSplit(g.counts[c], 0, g.place[node].lo + 1, s[node].value);
    SumZero(g.counts[c], g.place[node].lo + 1, s[node].value);
  }

  lemma WalkRight(s: seq<Symbol>, t: seq<Symbol>, g: Shape, c: nat, v: Byte, d: nat, node: nat, under: nat)
    requires TreeOk(s, g) && WalkingAt(s, t, g, c, v, d, node, under)
    requires v > s[node].value && s[node].right != 0
    ensures t[node] == s[node]
    ensures WalkingAt(s, t, g, c, v, d, node + s[node].right, under + s[node].under)
    ensures g.place[node + s[node].right].hi - g.place[node + s[node].right].lo < g.place[node].hi - g.place[node].lo
  {
    assert NodeOk(s, g, node);
    forall j | 1 <= j < |g.place| && j != node && Inside(g.place[j], g.place[node]) && Contains(g.place[j], v)
      ensures g.place[j].lo >= s[node].value
    {
      Narrow(s, g, node, j, v);
    }
    SumSplit(g.counts[c], 0, g.place[node].lo + 1, s[node].value + 1);
  }

  lemma WalkRightEnd(s: seq<Symbol>, t: seq<Symbol>, g: Shape, c: nat, v: Byte, d: nat, node: nat, under: nat)
    requires TreeOk(s, g) && WalkingAt(s, t, g, c, v, d, node, under)
    requires v > s[node].value && s[node].right == 0
    ensures t[node] == s[node] && Walked(s, t, g, c, v, d)
    ensures EmptyBranch(s, g, c, v, node, FromRight, s[node].value, g.place[node].hi)
    ensures under + s[node].under == Sum(g.counts[c], 0, v) == Sum(g.counts[c], 0, s[node].value + 1)
  {
    assert NodeOk(s, g, node);
    forall j | 1 <= j < |g.place| && j != node && Inside(g.place[j], g.place[node]) && Contains(g.place[j], v)
      ensures false
    {
      Narrow(s, g, node, j, v);
    }
    SumSplit(g.counts[c], 0, g.place[node].lo + 1, s[node].value + 1);
    SumSplit(g.counts[c], 0, s[node].value + 1, v);
    SumZero(g.counts[c], s[node].value + 1, v);
  }

  lemma UnderFits(s: seq<Symbol>, g: Shape, i: nat)
    requires TreeOk(s, g) && 1 <= i < |g.place|
    ensures NodeOk(s, g, i) && s[i].under <= Sum(g.counts[g.place[i].own], 0, 256)
  {
    assert NodeOk(s, g, i);
    SumPart(g.counts[g.place[i].own], g.place[i].lo + 1, s[i].value + 1);
  }

  function Hit(x: Symbol, d: nat): Symbol { x.(under := x.under + d, count := x.count + d) }

  lemma WalkHit(s: seq<Symbol>, t: seq<Symbol>, g: Shape, c: nat, v: Byte, d: nat, node: nat, under: nat)
    requires TreeOk(s, g) && WalkingAt(s, t, g, c, v, d, node, under)
    requires v == s[node].value
    ensures t[node] == s[node] && s[node].under <= Sum(g.counts[c], 0, 256)
    ensures Walked(s, t[node := Hit(s[node], d)], g, c, v, d)
    ensures TreeOk(t[node := Hit(s[node], d)], Counted(g, c, v, d))
    ensures g.counts[c][v] == s[node].count > 0
    ensures under + s[node].under - s[node].count == Sum(g.counts[c], 0, v)
  {
    UnderFits(s, g, node);
    forall j | 1 <= j < |g.place| && j != node && Inside(g.place[j], g.place[node]) && Contains(g.place[j], v)
      ensures false
    {
      Narrow(s, g, node, j, v);
    }
    SumSplit(g.counts[c], 0, g.place[node].lo + 1, v + 1);
    HitKeepsTree(s, t[node := Hit(s[node], d)], g, c, v, d);
  }

  /** The decoder's comparisons with a node decide as the encoder's. */
  lemma WalkCode(s: seq<Symbol>, t: seq<Symbol>, g: Shape, c: nat, v: Byte, d: nat, node: nat, under: nat,
                 minimum: nat, code: nat, after: nat, before: nat)
    requires TreeOk(s, g) && WalkingAt(s, t, g, c, v, d, node, under) && minimum <= 1
    requires var b := g.counts[c];
      v * minimum + Sum(b, 0, v) <= code < v * minimum + Sum(b, 0, v) + b[v] + minimum
    requires after == under + t[node].under + (t[node].value + 1) * minimum && before == t[node].count + minimum
    ensures t[node] == s[node] && before <= after
    ensures code >= after <==> v > s[node].value
    ensures code < after - before <==> v < s[node].value
    ensures after == Sum(g.counts[c], 0, s[node].value + 1) + (s[node].value + 1) * minimum
    ensures after - before == Sum(g.counts[c], 0, s[node].value) + s[node].value * minimum
  {
    hide Raised, Above, Inside;
    assert NodeOk(s, g, node);
    var w: int := s[node].value;
    SumSplit(g.counts[c], 0, g.place[node].lo + 1, w + 1);
    CodeSide(g.counts[c], v, w, minimum, code);
    TimesOnce(w, minimum);
  }

  lemma TimesOnce(w: nat, minimum: nat)
    ensures (w + 1) * minimum == w * minimum + minimum
  {
  }

  function Counted(g: Shape, c: nat, v: Byte, d: nat): Shape
    requires c < |g.counts|
  {
    g.(counts := g.counts[c := g.counts[c][v := g.counts[c][v] + d]])
  }

  lemma HitKeepsTree(s: seq<Symbol>, t: seq<Symbol>, g: Shape, c: nat, v: Byte, d: nat)
    requires TreeOk(s, g) && c < |g.place| && g.counts[c][v] > 0
    requires Walked(s, t, g, c, v, d)
    ensures TreeOk(t, Counted(g, c, v, d))
  {
    var h := Counted(g, c, v, d);
    forall i | 0 <= i < |g.place| ensures ContextOk(t, h, i) {
      assert ContextOk(s, g, i);
      if i >= 1 { assert NodeOk(s, g, i); }
    }
    forall i | 1 <= i < |g.place| ensures NodeOk(t, h, i) {
      assert NodeOk(s, g, i);
      SumUpdate(g.counts[c], v, g.counts[c][v] + d, g.place[i].lo + 1, s[i].value + 1);
    }
    forall i, j | 1 <= i < |g.place| && 1 <= j < |g.place| && i != j ensures Apart(t, h, i, j) {
      assert Apart(s, g, i, j);
    }
  }

  function GrownShape(g: Shape, c: nat, v: Byte, d: nat, lo: int, hi: int): Shape
    requires c < |g.counts|
  {
    Shape(g.place + [Place(c, lo, hi)], Counted(g, c, v, d).counts + [NoCounts()])
  }

  function NewSymbol(v: Byte, d: nat): Symbol { Symbol(v, d, d, 0, 0, 0, 0, 0, 0) }

  datatype Link = FromContext | FromLeft | FromRight

  function Linked(x: Symbol, link: Link, offset: nat): Symbol {
    match link
    case FromContext => x.(symbols := offset)
    case FromLeft => x.(left := offset)
    case FromRight => x.(right := offset)
  }

  /** The empty branch that the search for v ended at. */
  ghost predicate EmptyBranch(s: seq<Symbol>, g: Shape, c: nat, v: Byte, at: nat, link: Link, lo: int, hi: int)
    requires |g.place| == |g.counts| <= |s|
  {
    && at < |g.place| && c < |g.place| && lo < v < hi
    && g.counts[c][v] == 0
    && Above(s, g, c, v, lo, hi, at, false)
    && match link
       case FromContext => at == c && s[c].symbols == 0 && lo == -1 && hi == 256
       case FromLeft => 1 <= at && g.place[at].own == c && s[at].left == 0 && lo == g.place[at].lo && hi == s[at].value
       case FromRight => 1 <= at && g.place[at].own == c && s[at].right == 0 && lo == s[at].value && hi == g.place[at].hi
  }

  /** u is s after a new symbol for v has been hung into the empty branch at `at`. */
  ghost predicate Grew(s: seq<Symbol>, u: seq<Symbol>, g: Shape, c: nat, v: Byte, d: nat,
                       at: nat, link: Link, lo: int, hi: int) {
    && TreeOk(s, g) && d > 0 && |g.place| < |s| == |u|
    && EmptyBranch(s, g, c, v, at, link, lo, hi)
    && u[|g.place|] == NewSymbol(v, d)
    && u[0] == (if at == 0 then Linked(s[0], link, |g.place|) else s[0])
    && forall j :: 1 <= j < |g.place| ==>
         u[j] == if j == at then Linked(Raised(s[j], g.place[j], c, v, d), link, |g.place| - j)
                 else Raised(s[j], g.place[j], c, v, d)
  }

  lemma GrowKeepsContext(s: seq<Symbol>, u: seq<Symbol>, g: Shape, c: nat, v: Byte, d: nat,
                         at: nat, link: Link, lo: int, hi: int, i: nat)
    requires Grew(s, u, g, c, v, d, at, link, lo, hi) && i <= |g.place|
    ensures ContextOk(u, GrownShape(g, c, v, d, lo, hi), i)
  {
    if i < |g.place| {
      assert ContextOk(s, g, i);
      if link != FromContext { assert NodeOk(s, g, at); }
    }
  }

  lemma GrowKeepsNode(s: seq<Symbol>, u: seq<Symbol>, g: Shape, c: nat, v: Byte, d: nat,
                      at: nat, link: Link, lo: int, hi: int, i: nat)
    requires Grew(s, u, g, c, v, d, at, link, lo, hi) && 1 <= i < |g.place|
    ensures NodeOk(u, GrownShape(g, c, v, d, lo, hi), i)
  {
    assert NodeOk(s, g, i);
    if g.place[i].own == c {
      SumUpdate(g.counts[c], v, d, g.place[i].lo + 1, s[i].value + 1);
    }
  }

  lemma GrowAddsNode(s: seq<Symbol>, u: seq<Symbol>, g: Shape, c: nat, v: Byte, d: nat,
                     at: nat, link: Link, lo: int, hi: int)
    requires Grew(s, u, g, c, v, d, at, link, lo, hi)
    ensures NodeOk(u, GrownShape(g, c, v, d, lo, hi), |g.place|)
    ensures -1 <= lo && hi <= 256
  {
    if link == FromContext { assert ContextOk(s, g, c); } else { assert NodeOk(s, g, at); }
    SumUpdate(g.counts[c], v, d, lo + 1, v + 1);
    SumZero(g.counts[c], lo + 1, v + 1);
  }

  lemma GrowKeepsApart(s: seq<Symbol>, u: seq<Symbol>, g: Shape, c: nat, v: Byte, d: nat,
                       at: nat, link: Link, lo: int, hi: int, i: nat, j: nat)
    requires Grew(s, u, g, c, v, d, at, link, lo, hi)
    requires 1 <= i <= |g.place| && 1 <= j < |g.place| && i != j
    ensures Apart(u, GrownShape(g, c, v, d, lo, hi), i, j) && Apart(u, GrownShape(g, c, v, d, lo, hi), j, i)
  {
    if i < |g.place| { assert Apart(s, g, i, j) && Apart(s, g, j, i); } else { assert NodeOk(s, g, j); }
  }

  lemma GrowKeepsTree(s: seq<Symbol>, u: seq<Symbol>, g: Shape, c: nat, v: Byte, d: nat,
                      at: nat, link: Link, lo: int, hi: int)
    requires Grew(s, u, g, c, v, d, at, link, lo, hi)
    ensures TreeOk(u, GrownShape(g, c, v, d, lo, hi))
  {
    var h, n := GrownShape(g, c, v, d, lo, hi), |g.place|;
    forall i | 0 <= i < n + 1 ensures ContextOk(u, h, i) {
      GrowKeepsContext(s, u, g, c, v, d, at, link, lo, hi, i);
    }
    forall i | 1 <= i < n + 1 ensures NodeOk(u, h, i) {
      if i < n { GrowKeepsNode(s, u, g, c, v, d, at, link, lo, hi, i); }
      else { GrowAddsNode(s, u, g, c, v, d, at, link, lo, hi); }
    }
    forall i, j | 1 <= i < n + 1 && 1 <= j < n + 1 && i != j ensures Apart(u, h, i, j) {
      if j < n { GrowKeepsApart(s, u, g, c, v, d, at, link, lo, hi, i, j); }
      else { GrowKeepsApart(s, u, g, c, v, d, at, link, lo, hi, j, i); }
    }
  }

  lemma GrewFrom(s: seq<Symbol>, t: seq<Symbol>, u: seq<Symbol>, g: Shape, c: nat, v: Byte, d: nat,
                 at: nat, link: Link, lo: int, hi: int)
    requires TreeOk(s, g) && d > 0 && |g.place| < |s|
    requires Walked(s, t, g, c, v, d)
    requires EmptyBranch(s, g, c, v, at, link, lo, hi)
    requires u == t[|g.place| := NewSymbol(v, d)][at := Linked(t[at], link, |g.place| - at)]
    ensures Grew(s, u, g, c, v, d, at, link, lo, hi)
  {
  }

  /** Where no symbol exists yet, the context's own link is the empty branch. */
  lemma EmptyContext(s: seq<Symbol>, g: Shape, c: nat, v: Byte, d: nat)
    requires TreeOk(s, g) && c < |g.place| && s[c].symbols == 0
    ensures EmptyBranch(s, g, c, v, c, FromContext, -1, 256) && Walked(s, s, g, c, v, d)
    ensures Sum(g.counts[c], 0, v) == 0
  {
    assert ContextOk(s, g, c);
    SumZero(g.counts[c], 0, v);
    forall j | 1 <= j < |g.place| ensures g.place[j].own != c { assert NodeOk(s, g, j); }
  }

  // Rescaling.

  function Begun(x: Symbol): Symbol { x.(count := Half(x.count), under := Half(x.count)) }

  function HalvedNode(x: Symbol, pl: Place, c: Counts): Symbol {
    x.(count := Half(x.count), under := if -1 <= pl.lo then Sum(Halved(c), pl.lo + 1, x.value + 1) else 0)
  }

  /** t is t0 with the nodes of s below pl, except those below rest, rescaled. */
  ghost predicate Rescaling(s: seq<Symbol>, t0: seq<Symbol>, t: seq<Symbol>, g: Shape, pl: Place, rest: Place)
    requires |g.place| <= |s| && pl.own < |g.counts|
  {
    && |t| == |t0| == |s|
    && (forall j :: 0 <= j < |s| && !(1 <= j < |g.place|) ==> t[j] == t0[j])
    && (forall j :: 1 <= j < |g.place| ==>
          t[j] == if Inside(g.place[j], pl) && !Inside(g.place[j], rest)
                    then HalvedNode(s[j], g.place[j], g.counts[pl.own]) else t0[j])
  }

  ghost predicate Below(s: seq<Symbol>, t: seq<Symbol>, g: Shape, pl: Place) 
    requires |g.place| <= |s|
  {
    |t| == |s| && forall j :: 1 <= j < |g.place| && Inside(g.place[j], pl) ==> t[j] == s[j]
  }

  lemma Partition(s: seq<Symbol>, g: Shape, i: nat, j: nat)
    requires TreeOk(s, g) && 1 <= i < |g.place| && 1 <= j < |g.place| && i != j
    requires Inside(g.place[j], g.place[i])
    ensures NodeOk(s, g, i)
    ensures (s[i].left != 0 && Inside(g.place[j], g.place[i + s[i].left]))
         || (s[i].right != 0 && Inside(g.place[j], g.place[i + s[i].right]))
  {
    assert NodeOk(s, g, i) && NodeOk(s, g, j);
    Narrow(s, g, i, j, s[j].value);
  }

  /** t1 is t with node and its left subtree rescaled. */
  ghost predicate NodeRescaled(s: seq<Symbol>, t: seq<Symbol>, t1: seq<Symbol>, g: Shape, node: nat)
    requires TreeOk(s, g) && 1 <= node < |g.place|
  {
    && |t1| == |t| == |s| && NodeOk(s, g, node)
    && (forall j :: 0 <= j < |s| && !(1 <= j < |g.place|) ==> t1[j] == t[j])
    && (forall j :: 1 <= j < |g.place| ==>
          t1[j] == if j == node || (s[node].left != 0 && Inside(g.place[j], g.place[node + s[node].left]))
                   then HalvedNode(s[j], g.place[j], g.counts[g.place[node].own]) else t[j])
  }

  /** No node of pl's context is inside this. */
  function Nowhere(pl: Place): Place { pl.(own := pl.own + 1) }

  lemma HalvedEnds(s: seq<Symbol>, g: Shape, node: nat)
    requires |g.place| == |g.counts| <= |s| && 1 <= node < |g.place| && NodeOk(s, g, node)
    ensures var h, pl := Halved(g.counts[g.place[node].own]), g.place[node];
      && Sum(h, pl.lo + 1, s[node].value + 1) == Half(s[node].count) + Sum(h, pl.lo + 1, s[node].value)
      && (s[node].left == 0 ==> Sum(h, pl.lo + 1, s[node].value) == 0)
      && (s[node].right == 0 ==> Sum(h, s[node].value + 1, pl.hi) == 0)
  {
    var h, pl := Halved(g.counts[g.place[node].own]), g.place[node];
    if s[node].left == 0 { SumZero(h, pl.lo + 1, s[node].value); }
    if s[node].right == 0 { SumZero(h, s[node].value + 1, pl.hi); }
  }

  lemma SplitTwice(h: Counts, from: int, lo: int, v: int, hi: int)
    requires -1 <= from <= lo < v < hi <= 256
    ensures Sum(h, from + 1, v + 1) == Sum(h, from + 1, lo + 1) + Sum(h, lo + 1, v + 1)
    ensures Sum(h, from + 1, hi) == Sum(h, from + 1, v + 1) + Sum(h, v + 1, hi)
  {
    SumSplit(h, from + 1, lo + 1, v + 1);
    SumSplit(h, from + 1, v + 1, hi);
  }

  lemma RescaleSums(s: seq<Symbol>, g: Shape, node: nat, from: int)
    requires TreeOk(s, g) && 1 <= node < |g.place|
    ensures NodeOk(s, g, node)
    ensures var h, pl := Halved(g.counts[g.place[node].own]), g.place[node];
      && Sum(h, pl.lo + 1, s[node].value + 1) == Half(s[node].count) + Sum(h, pl.lo + 1, s[node].value)
      && (s[node].left == 0 ==> Sum(h, pl.lo + 1, s[node].value) == 0)
      && (s[node].right == 0 ==> Sum(h, s[node].value + 1, pl.hi) == 0)
      && (-1 <= from <= pl.lo ==>
            Sum(h, from + 1, s[node].value + 1) == Sum(h, from + 1, pl.lo + 1) + Sum(h, pl.lo + 1, s[node].value + 1)
            && Sum(h, from + 1, pl.hi) == Sum(h, from + 1, s[node].value + 1) + Sum(h, s[node].value + 1, pl.hi))
  {
    assert NodeOk(s, g, node);
    hide Sum, Halved, Half, TreeOk;
    HalvedEnds(s, g, node);
    var h, pl := Halved(g.counts[g.place[node].own]), g.place[node];
    if -1 <= from <= pl.lo { SplitTwice(h, from, pl.lo, s[node].value, pl.hi); }
  }

  /** What holds when the loop of enet_symbol_rescale, begun at pl, has come to node. */
  ghost predicate RescalingAt(s: seq<Symbol>, t0: seq<Symbol>, t: seq<Symbol>, g: Shape, pl: Place, node: nat, total: nat) {
    && 1 <= node < |g.place| == |g.counts| <= |s| && pl.own < |g.place|
    && g.place[node].own == pl.own && g.place[node].hi == pl.hi && -1 <= pl.lo <= g.place[node].lo < 256
    && Rescaling(s, t0, t, g, pl, g.place[node])
    && total == Sum(Halved(g.counts[pl.own]), pl.lo + 1, g.place[node].lo + 1)
  }

  lemma RescaleStart(s: seq<Symbol>, t: seq<Symbol>, g: Shape, start: nat)
    requires 1 <= start < |g.place| == |g.counts| <= |s| == |t| && NodeOk(s, g, start)
    ensures RescalingAt(s, t, t, g, g.place[start], start, 0)
  {
  }

  lemma RescaleEnter(s: seq<Symbol>, t0: seq<Symbol>, t: seq<Symbol>, g: Shape, pl: Place, node: nat, total: nat)
    requires TreeOk(s, g) && RescalingAt(s, t0, t, g, pl, node, total) && Below(s, t0, g, pl)
    ensures t[node] == s[node] && NodeOk(s, g, node)
    ensures s[node].left != 0 ==>
      node + s[node].left < |g.place| && Below(s, t[node := Begun(s[node])], g, g.place[node + s[node].left])
  {
    assert NodeOk(s, g, node);
  }

  lemma RescaleStep(s: seq<Symbol>, t0: seq<Symbol>, t: seq<Symbol>, t1: seq<Symbol>, g: Shape, pl: Place, node: nat, total: nat)
    requires TreeOk(s, g) && RescalingAt(s, t0, t, g, pl, node, total)
    requires NodeRescaled(s, t, t1, g, node)
    ensures t1[node].right == s[node].right
    ensures s[node].right == 0 ==>
      && pl.hi <= 256
      && Rescaling(s, t0, t1, g, pl, Nowhere(pl))
      && total + t1[node].under == Sum(Halved(g.counts[pl.own]), pl.lo + 1, pl.hi)
    ensures s[node].right != 0 ==>
      && node + s[node].right < |g.place|
      && g.place[node + s[node].right].lo > g.place[node].lo
      && RescalingAt(s, t0, t1, g, pl, node + s[node].right, total + t1[node].under)
  {
    RescaleSums(s, g, node, pl.lo);
    var rest := if s[node].right == 0 then Nowhere(pl) else g.place[node + s[node].right];
    forall j | 1 <= j < |g.place|
      ensures t1[j] == if Inside(g.place[j], pl) && !Inside(g.place[j], rest)
                    then HalvedNode(s[j], g.place[j], g.counts[pl.own]) else t0[j]
    {
      assert NodeOk(s, g, j);
      if j != node && Inside(g.place[j], g.place[node]) { Partition(s, g, node, j); }
    }
  }

  lemma LeafDone(s: seq<Symbol>, t: seq<Symbol>, g: Shape, node: nat)
    requires TreeOk(s, g) && 1 <= node < |g.place| && |t| == |s| && t[node] == s[node]
    requires NodeOk(s, g, node) && s[node].left == 0
    ensures NodeRescaled(s, t, t[node := Begun(s[node])], g, node)
  {
    RescaleSums(s, g, node, -2);
  }

  lemma NodeDone(s: seq<Symbol>, t: seq<Symbol>, u: seq<Symbol>, g: Shape, node: nat, below: nat)
    requires TreeOk(s, g) && 1 <= node < |g.place| && |t| == |s| && t[node] == s[node]
    requires NodeOk(s, g, node) && s[node].left != 0
    requires Rescaling(s, t[node := Begun(s[node])], u, g, g.place[node + s[node].left],
                       Nowhere(g.place[node + s[node].left])) == true
    requires below == Sum(Halved(g.counts[g.place[node].own]), g.place[node].lo + 1, s[node].value)
    ensures |u| == |t| && u[node] == Begun(s[node])
    ensures NodeRescaled(s, t, u[node := Begun(s[node]).(under := Half(s[node].count) + below)], g, node)
  {
    RescaleSums(s, g, node, -2);
  }

  lemma NodeFits(s: seq<Symbol>, g: Shape, node: nat, below: nat)
    requires TreeOk(s, g) && 1 <= node < |g.place|
    requires NodeOk(s, g, node)
    requires below == Sum(Halved(g.counts[g.place[node].own]), g.place[node].lo + 1, s[node].value)
    ensures Half(s[node].count) + below <= Sum(g.counts[g.place[node].own], 0, 256)
  {
    RescaleSums(s, g, node, -2);
    SumHalved(g.counts[g.place[node].own], g.place[node].lo + 1, s[node].value + 1);
    SumPart(g.counts[g.place[node].own], g.place[node].lo + 1, s[node].value + 1);
  }

  ghost predicate TreeRescaled(s: seq<Symbol>, t: seq<Symbol>, g: Shape, c: nat) {
    && TreeOk(s, g) && c < |g.place|
    && Rescaling(s, s, t, g, Place(c, -1, 256), Nowhere(Place(c, -1, 256)))
  }

  function HalvedAt(g: Shape, c: nat): Shape
    requires c < |g.counts|
  {
    g.(counts := g.counts[c := Halved(g.counts[c])])
  }

  lemma RescaleKeepsNode(s: seq<Symbol>, t: seq<Symbol>, g: Shape, c: nat, j: nat)
    requires TreeRescaled(s, t, g, c) && 1 <= j < |g.place|
    ensures t[j] == if g.place[j].own == c then HalvedNode(s[j], g.place[j], g.counts[c]) else s[j]
    ensures NodeOk(t, HalvedAt(g, c), j)
  {
    assert NodeOk(s, g, j);
  }

  lemma RescaleKeepsContext(s: seq<Symbol>, t: seq<Symbol>, g: Shape, c: nat, i: nat)
    requires TreeRescaled(s, t, g, c) && i < |g.place|
    ensures ContextOk(t, HalvedAt(g, c), i)
  {
    assert ContextOk(s, g, i);
    if i >= 1 { RescaleKeepsNode(s, t, g, c, i); }
  }

  lemma RescaleKeepsApart(s: seq<Symbol>, t: seq<Symbol>, g: Shape, c: nat, i: nat, j: nat)
    requires TreeRescaled(s, t, g, c) && 1 <= i < |g.place| && 1 <= j < |g.place| && i != j
    ensures Apart(t, HalvedAt(g, c), i, j)
  {
    assert Apart(s, g, i, j);
    RescaleKeepsNode(s, t, g, c, i);
    RescaleKeepsNode(s, t, g, c, j);
  }

  /** A rescaled tree is a tree, over halved counts. */
  lemma RescaleKeepsTree(s: seq<Symbol>, t: seq<Symbol>, g: Shape, c: nat)
    requires TreeRescaled(s, t, g, c)
    ensures TreeOk(t, HalvedAt(g, c))
  {
    var h := HalvedAt(g, c);
    forall i | 0 <= i < |g.place| ensures ContextOk(t, h, i) {
      RescaleKeepsContext(s, t, g, c, i);
    }
    forall j | 1 <= j < |g.place| ensures NodeOk(t, h, j) {
      RescaleKeepsNode(s, t, g, c, j);
    }
    forall i, j | 1 <= i < |g.place| && 1 <= j < |g.place| && i != j ensures Apart(t, h, i, j) {
      RescaleKeepsApart(s, t, g, c, i, j);
    }
  }
}
