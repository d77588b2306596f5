/** Occurrence counts by byte value, and their partial sums. */
module Counting {
  import opened Bytes

  type Counts = c: seq<nat> | |c| == 256 witness seq(256, _ => 0)

  function NoCounts(): Counts { seq(256, _ => 0) }

  /** The sum of c[a..b]. */
  function Sum(c: Counts, a: int, b: int): nat
    requires 0 <= a && b <= 256
    decreases b - a
  {
    if a >= b then 0 else Sum(c, a, b - 1) + c[b - 1]
  }

  ghost predicate Zero(c: Counts, a: int, b: int)
    requires 0 <= a && b <= 256
  {
    forall k :: a <= k < b ==> c[k] == 0
  }

  function Half(x: nat): nat { x - x / 2 }

  function Halved(c: Counts): (r: Counts)
    ensures forall k :: 0 <= k < 256 ==> r[k] == Half(c[k])
  {
    seq(256, k requires 0 <= k < 256 => Half(c[k]))
  }

  lemma {:induction false} SumSplit(c: Counts, a: int, m: int, b: int)
    requires 0 <= a <= m <= b <= 256
    ensures Sum(c, a, b) == Sum(c, a, m) + Sum(c, m, b)
    decreases b - m
  {
    if m < b { SumSplit(c, a, m, b - 1); }
  }

  lemma {:induction false} SumUpdate(c: Counts, v: Byte, x: nat, a: int, b: int)
    requires 0 <= a && b <= 256
    ensures Sum(c[v := x], a, b) == if a <= v < b then Sum(c, a, b) - c[v] + x else Sum(c, a, b)
    decreases b - a
  {
    if a < b { SumUpdate(c, v, x, a, b - 1); }
  }

  lemma {:induction false} SumZero(c: Counts, a: int, b: int)
    requires 0 <= a && b <= 256
    ensures Sum(c, a, b) == 0 <==> Zero(c, a, b)
    decreases b - a
  {
    if a < b { SumZero(c, a, b - 1); }
  }

  lemma {:induction false} SumHalved(c: Counts, a: int, b: int)
    requires 0 <= a <= b <= 256
    ensures Sum(c, a, b) <= 2 * Sum(Halved(c), a, b) <= Sum(c, a, b) + (b - a)
    ensures Sum(Halved(c), a, b) <= Sum(c, a, b)
    decreases b - a
  {
    if a < b { SumHalved(c, a, b - 1); }
  }

  /** A part is at most the whole. */
  lemma SumPart(c: Counts, a: int, b: int)
    requires 0 <= a <= b <= 256
    ensures Sum(c, a, b) <= Sum(c, 0, 256)
  {
    SumSplit(c, 0, a, 256);
    SumSplit(c, a, b, 256);
  }

  lemma SumOrder(c: Counts, v: int, w: int)
    requires 0 <= v <= w <= 256
    ensures Sum(c, 0, v) <= Sum(c, 0, w)
  {
    SumSplit(c, 0, v, w);
  }

  /** Where a code falls, given the part of the line that belongs to v. */
  lemma CodeSide(c: Counts, v: Byte, w: Byte, minimum: nat, code: nat)
    requires minimum <= 1
    requires v * minimum + Sum(c, 0, v) <= code < v * minimum + Sum(c, 0, v) + c[v] + minimum
    ensures code >= Sum(c, 0, w + 1) + (w + 1) * minimum <==> v > w
    ensures code < Sum(c, 0, w) + w * minimum <==> v < w
  {
    if v > w {
      SumOrder(c, w + 1, v);
    } else if v < w {
      SumOrder(c, v + 1, w);
    }
    if minimum == 0 { assert v * minimum == 0 && w * minimum == 0 && (w + 1) * minimum == 0; }
    else { assert v * minimum == v && w * minimum == w && (w + 1) * minimum == w + 1; }
  }

  /** The root's arithmetic for a value between w and the next one up: code stands for v itself. */
  lemma ValueAbove(c: Counts, v: Byte, w: Byte, code: nat, after: int)
    requires v > w && c[v] == 0 && Sum(c, 0, v) == Sum(c, 0, w + 1)
    requires code == v + Sum(c, 0, v) && after == Sum(c, 0, w + 1) + (w + 1)
    ensures w + 1 + (code - after) / 1 == v && code - (code - after) % 1 == code
  {
  }

  lemma ValueBelow(c: Counts, v: Byte, w: Byte, code: nat, first: int)
    requires v < w && c[v] == 0 && Sum(c, 0, v) == Sum(c, 0, w)
    requires code == v + Sum(c, 0, v) && first == Sum(c, 0, w) + w
    ensures w - 1 - (first - code - 1) / 1 == v && code - (first - code - 1) % 1 == code
  {
  }
}
