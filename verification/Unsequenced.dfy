/** Unsequenced packets: delivered at most once, in any order. */
module Unsequenced {
  import opened Arithmetic
  import opened Bytes

  const GROUPS := 0x1_0000
  const WINDOW_SIZE := 1024
  const FREE_WINDOWS := 32

  function Bit(i: nat): bv32
    requires i < 32
  {
    1 << i
  }

  lemma BitsApart(i: nat, j: nat)
    requires i < 32 && j < 32 && i != j
    ensures Bit(i) & Bit(j) == 0
  {
  }

  lemma BitSet(word: bv32, i: nat, j: nat)
    requires i < 32 && j < 32
    ensures (word | Bit(i)) & Bit(j) != 0 <==> i == j || word & Bit(j) != 0
  {
    if i != j { BitsApart(i, j); }
  }

  /** The bitmap's 32-bit words hold the bits of held. */
  ghost predicate Marks(words: seq<bv32>, held: set<nat>) {
    && |words| == WINDOW_SIZE / 32
    && forall i {:trigger i in held} :: 0 <= i < WINDOW_SIZE ==> (words[i / 32] & Bit(i % 32) != 0 <==> i in held)
  }

  lemma MarkMore(words: seq<bv32>, held: set<nat>, i: nat)
    requires Marks(words, held) && i < WINDOW_SIZE
    ensures Marks(words[i / 32 := words[i / 32] | Bit(i % 32)], held + {i})
  {
    var more := words[i / 32 := words[i / 32] | Bit(i % 32)];
    hide Bit;
    forall j | 0 <= j < WINDOW_SIZE ensures more[j / 32] & Bit(j % 32) != 0 <==> j in held + {i} {
      assert words[j / 32] & Bit(j % 32) != 0 <==> j in held;
      var a, b, c, d := i / 32, i % 32, j / 32, j % 32;
      if a == c { BitSet(words[a], b, d); }
      assert i == j <==> a == c && b == d;
    }
  }

  lemma NoMarks(words: seq<bv32>)
    requires |words| == WINDOW_SIZE / 32 && forall k :: 0 <= k < |words| ==> words[k] == 0
    ensures Marks(words, {})
  {
  }

  lemma MarkIs(words: seq<bv32>, held: set<nat>, i: nat)
    requires Marks(words, held) && i < WINDOW_SIZE
    ensures words[i / 32] & Bit(i % 32) != 0 <==> i in held
  {
    assert i in held <==> i in held;
  }

  /** The handler's test of a 16-bit group number against the window's. */
  predicate Taken(number: nat, base: nat) {
    (if number < base then number + GROUPS else number) < base + FREE_WINDOWS * WINDOW_SIZE
  }

  /** The test takes every group whose distance from the window, modulo the number of groups, is less than half of them. */
  lemma TakenExactly(g: nat, base: nat)
    ensures Taken(g % GROUPS, base % GROUPS) <==> (g - base) % GROUPS < FREE_WINDOWS * WINDOW_SIZE
  {
    var a, b := g % GROUPS, base % GROUPS;
    var laps := g / GROUPS - base / GROUPS;
    assert g - base == laps * GROUPS + (a - b);
  }

  /** Groups no further from the window than the test can tell. */
  ghost predicate Near(g: nat, base: nat) {
    base <= g + FREE_WINDOWS * WINDOW_SIZE && g < base + FREE_WINDOWS * WINDOW_SIZE
  }

  /** Group 0 is let through again when the window has come to these groups. */
  lemma StaleIsTaken()
    ensures var base := (FREE_WINDOWS + 1) * WINDOW_SIZE; !Near(0, base) && Taken(0, base % GROUPS)
  {
  }

  lemma TakenIsTrue(g: nat, base: nat)
    requires Near(g, base)
    ensures Taken(g % GROUPS, base % GROUPS) <==> g >= base
  {
    TakenExactly(g, base);
  }

  /** Whole windows make up the number space. */
  lemma BlockIs(g: nat)
    ensures g % GROUPS % WINDOW_SIZE == g % WINDOW_SIZE
    ensures (g - g % WINDOW_SIZE) % GROUPS == g % GROUPS - g % WINDOW_SIZE && (g - g % WINDOW_SIZE) % WINDOW_SIZE == 0
  {
    var lap, r := g / GROUPS, g % GROUPS;
    var i, c := r / WINDOW_SIZE, r % WINDOW_SIZE;
    ModIs(g, WINDOW_SIZE, 64 * lap + i, c);
    ModIs(g - c, GROUPS, lap, WINDOW_SIZE * i);
    ModIs(g - c, WINDOW_SIZE, 64 * lap + i, 0);
  }

  lemma SameLap(block: nat, base: nat)
    requires base <= block < base + GROUPS && block % GROUPS == base % GROUPS
    ensures block == base
  {
    var d := block / GROUPS - base / GROUPS;
    assert block - base == d * GROUPS;
  }

  lemma SameBlock(g: nat, base: nat)
    requires base <= g < base + FREE_WINDOWS * WINDOW_SIZE && base % WINDOW_SIZE == 0
    ensures g % GROUPS % WINDOW_SIZE == g % WINDOW_SIZE && g - g % WINDOW_SIZE >= base
    ensures (g - g % WINDOW_SIZE) % GROUPS == g % GROUPS - g % WINDOW_SIZE && (g - g % WINDOW_SIZE) % WINDOW_SIZE == 0
    ensures g % GROUPS - g % WINDOW_SIZE == base % GROUPS <==> g - g % WINDOW_SIZE == base
  {
    BlockIs(g);
    var block := g - g % WINDOW_SIZE;
    assert block / WINDOW_SIZE * WINDOW_SIZE == block && base / WINDOW_SIZE * WINDOW_SIZE == base;
    if block % GROUPS == base % GROUPS { SameLap(block, base); }
  }

  lemma NoneAhead(groups: seq<nat>, base: nat, next: nat)
    requires base % WINDOW_SIZE == 0 && next % WINDOW_SIZE == 0 && next > base
    requires forall j :: 0 <= j < |groups| ==> groups[j] < base + WINDOW_SIZE
    ensures forall x :: x in groups ==> x < next
    ensures forall j :: 0 <= j < |groups| ==> groups[j] < next + WINDOW_SIZE
  {
    assert next >= base + WINDOW_SIZE;
  }

  class Receiver {
    var incomingUnsequencedGroup: nat
    const unsequencedWindow: array<bv32>
    var received: seq<seq<Byte>>
    ghost var base: nat
    ghost var held: set<nat>
    ghost var groups: seq<nat>

    /** groups are those of the packets received, none twice; held are the ones in the window from base. */
    ghost predicate Valid()
      reads this, unsequencedWindow
    {
      && base % WINDOW_SIZE == 0 && incomingUnsequencedGroup == base % GROUPS
      && unsequencedWindow.Length == WINDOW_SIZE / 32 && Marks(unsequencedWindow[..], held) == true
      && |groups| == |received|
      && (forall i {:trigger i in held} :: 0 <= i < WINDOW_SIZE ==> (i in held <==> base + i in groups))
      && (forall j :: 0 <= j < |groups| ==> groups[j] < base + WINDOW_SIZE)
      && (forall j, k :: 0 <= j < k < |groups| ==> groups[j] != groups[k])
    }

    constructor ()
      ensures Valid() && fresh(unsequencedWindow) && received == [] && groups == [] && base == 0
    {
      incomingUnsequencedGroup, received := 0, [];
      unsequencedWindow := new bv32[WINDOW_SIZE / 32](_ => 0);
      base, held, groups := 0, {}, [];
      new;
      NoMarks(unsequencedWindow[..]);
    }

    /** Moves the window to g's block if it is a later one; otherwise looks g up. */
    method Advance(number: nat, ghost g: nat) returns (seen: bool)
      requires Valid() && number == g % GROUPS && base <= g < base + FREE_WINDOWS * WINDOW_SIZE
      modifies `incomingUnsequencedGroup, `base, `held, unsequencedWindow
      ensures Valid() && base == g - g % WINDOW_SIZE && (seen <==> g in groups)
    {
      var index := number % WINDOW_SIZE;
      SameBlock(g, base);
      hide Marks, Bit;
      MarkIs(unsequencedWindow[..], held, index);
      seen := false;
      if number - index != incomingUnsequencedGroup {
        incomingUnsequencedGroup := number - index;
        ClearWindow();
        NoneAhead(groups, base, g - index);
        base, held := g - index, {};
      } else {
        assert index in held <==> base + index in groups;
        seen := HasMark(index);
      }
    }

    /** enet_protocol_handle_send_unsequenced; full: totalWaitingData has reached its maximum.
        A group is received when it is not behind the window and has not been received before. */
    method Receive(number: nat, data: seq<Byte>, full: bool, ghost g: nat) returns (ok: bool)
      requires Valid() && number == g % GROUPS && Near(g, base)
      modifies this, unsequencedWindow
      ensures Valid() && base == if g >= old(base) then g - g % WINDOW_SIZE else old(base)
      ensures var unseen := g >= old(base) && g !in old(groups);
        && ok == !(unseen && full)
        && groups == (if unseen && ok then old(groups) + [g] else old(groups))
        && received == (if unseen && ok then old(received) + [data] else old(received))
    {
      hide Marks, Taken, Bit;
      TakenIsTrue(g, base);
      if !Taken(number, incomingUnsequencedGroup) { return true; }
      var seen := Advance(number, g);
      if seen { return true; }
      if full { return false; }
      received := received + [data];
      Mark(number, g);
      return true;
    }

    /** The bit of g in the window. */
    method Mark(number: nat, ghost g: nat)
      requires number == g % GROUPS && base == g - g % WINDOW_SIZE && g !in groups
      requires base % WINDOW_SIZE == 0 && incomingUnsequencedGroup == base % GROUPS && |received| == |groups| + 1
      requires unsequencedWindow.Length == WINDOW_SIZE / 32 && Marks(unsequencedWindow[..], held)
      requires forall i {:trigger i in held} :: 0 <= i < WINDOW_SIZE ==> (i in held <==> base + i in groups)
      requires forall j :: 0 <= j < |groups| ==> groups[j] < base + WINDOW_SIZE
      requires forall j, k :: 0 <= j < k < |groups| ==> groups[j] != groups[k]
      modifies `held, `groups, unsequencedWindow
      ensures Valid() && groups == old(groups) + [g]
    {
      hide Marks, Bit;
      SameBlock(g, base);
      var index := number % WINDOW_SIZE;
      ghost var words := unsequencedWindow[..];
      MarkMore(words, held, index);
      unsequencedWindow[index / 32] := unsequencedWindow[index / 32] | Bit(index % 32);
      assert unsequencedWindow[..] == words[index / 32 := words[index / 32] | Bit(index % 32)];
      held, groups := held + {index}, groups + [g];
    }

    predicate HasMark(index: nat)
      requires index < WINDOW_SIZE && unsequencedWindow.Length == WINDOW_SIZE / 32
      reads this, unsequencedWindow
    {
      unsequencedWindow[index / 32] & Bit(index % 32) != 0
    }

    method ClearWindow()
      requires unsequencedWindow.Length == WINDOW_SIZE / 32
      modifies unsequencedWindow
      ensures Marks(unsequencedWindow[..], {})
    {
      forall k | 0 <= k < unsequencedWindow.Length { unsequencedWindow[k] := 0; }
      NoMarks(unsequencedWindow[..]);
    }
  }

  /** A packet received twice: its group's copy comes when the window has moved on too far. */
  method ReceivedAgain(a: seq<Byte>, b: seq<Byte>, c: seq<Byte>) returns (r: Receiver)
    ensures r.received == [a, b, c, a]
  {
    r := new Receiver();
    var ok := r.Receive(0, a, false, 0);
    ok := r.Receive(20 * WINDOW_SIZE, b, false, 20 * WINDOW_SIZE);
    ok := r.Receive(33 * WINDOW_SIZE, c, false, 33 * WINDOW_SIZE);
    ok := r.Receive(0, a, false, GROUPS);
  }
}
