/** The sending side of a channel's reliable commands: which windows are in flight, and what an acknowledgement frees. */
module SendWindow {
  import Arithmetic
  import opened Bytes
  import opened SequenceNumbers
  import opened Fragmentation
  import opened Numbering

  // usedReliableWindows, one bit for each window.

  function Bit(w: nat): bv16
    requires w < RELIABLE_WINDOWS
  {
    1 << w
  }

  /** The windows w to w + FREE_RELIABLE_WINDOWS + 1, the highest bits wrapping to the lowest. */
  function Mask(w: nat): bv16
    requires w < RELIABLE_WINDOWS
  {
    (0x3FF << w) | (0x3FF >> (RELIABLE_WINDOWS - w))
  }

  lemma MaskHas(w: nat, d: nat)
    requires w < RELIABLE_WINDOWS && d < FREE_RELIABLE_WINDOWS + 2
    ensures Mask(w) & Bit((w + d) % RELIABLE_WINDOWS) == Bit((w + d) % RELIABLE_WINDOWS)
  {
  }

  lemma BitsApart(w: nat, x: nat)
    requires w < RELIABLE_WINDOWS && x < RELIABLE_WINDOWS && w != x
    ensures Bit(w) & Bit(x) == 0
  {
  }

  lemma BitSet(used: bv16, w: nat, x: nat)
    requires w < RELIABLE_WINDOWS && x < RELIABLE_WINDOWS
    ensures (used | Bit(w)) & Bit(x) != 0 <==> w == x || used & Bit(x) != 0
  {
    if w != x { BitsApart(w, x); }
  }

  lemma BitCleared(used: bv16, w: nat, x: nat)
    requires w < RELIABLE_WINDOWS && x < RELIABLE_WINDOWS
    ensures (used & !Bit(w)) & Bit(x) != 0 <==> w != x && used & Bit(x) != 0
  {
    if w != x { BitsApart(w, x); }
  }

  /** The bits that are set are those of the windows. */
  ghost predicate Marks(used: bv16, windows: set<nat>) {
    forall w {:trigger w in windows} :: 0 <= w < RELIABLE_WINDOWS ==> (used & Bit(w) != 0 <==> w in windows)
  }

  lemma MarkMore(used: bv16, windows: set<nat>, w: nat)
    requires Marks(used, windows) && w < RELIABLE_WINDOWS
    ensures Marks(used | Bit(w), windows + {w})
  {
    forall x | 0 <= x < RELIABLE_WINDOWS ensures (used | Bit(w)) & Bit(x) != 0 <==> x in windows + {w} {
      BitSet(used, w, x);
      assert used & Bit(x) != 0 <==> x in windows;
    }
  }

  lemma MarkLess(used: bv16, windows: set<nat>, w: nat)
    requires Marks(used, windows) && w < RELIABLE_WINDOWS
    ensures Marks(used & !Bit(w), windows - {w})
  {
    forall x | 0 <= x < RELIABLE_WINDOWS ensures (used & !Bit(w)) & Bit(x) != 0 <==> x in windows - {w} {
      BitCleared(used, w, x);
      assert used & Bit(x) != 0 <==> x in windows;
    }
  }

  lemma BitValues()
    ensures Bit(0) == 0x1 && Bit(1) == 0x2 && Bit(2) == 0x4 && Bit(3) == 0x8 && Bit(4) == 0x10 && Bit(5) == 0x20 && Bit(6) == 0x40 && Bit(7) == 0x80
      && Bit(8) == 0x100 && Bit(9) == 0x200 && Bit(10) == 0x400 && Bit(11) == 0x800 && Bit(12) == 0x1000 && Bit(13) == 0x2000 && Bit(14) == 0x4000 && Bit(15) == 0x8000
  {
  }

  lemma MaskValues()
    ensures Mask(0) == 0x3FF && Mask(1) == 0x7FE && Mask(2) == 0xFFC && Mask(3) == 0x1FF8 && Mask(4) == 0x3FF0 && Mask(5) == 0x7FE0 && Mask(6) == 0xFFC0 && Mask(7) == 0xFF81
      && Mask(8) == 0xFF03 && Mask(9) == 0xFE07 && Mask(10) == 0xFC0F && Mask(11) == 0xF81F && Mask(12) == 0xF03F && Mask(13) == 0xE07F && Mask(14) == 0xC0FF && Mask(15) == 0x81FF
  {
  }

  function Ahead(w: nat, d: nat): bv16 { Bit((w + d) % RELIABLE_WINDOWS) }

  /** The mask is made of these bits and no others. */
  lemma MaskIsBits(w: nat)
    requires w < RELIABLE_WINDOWS
    ensures Mask(w) == Ahead(w, 0) | Ahead(w, 1) | Ahead(w, 2) | Ahead(w, 3) | Ahead(w, 4)
      | Ahead(w, 5) | Ahead(w, 6) | Ahead(w, 7) | Ahead(w, 8) | Ahead(w, 9)
  {
    BitValues();
    MaskValues();
    hide Bit, Mask;
    if w < 8 {
      if w < 4 { if w == 0 {} else if w == 1 {} else if w == 2 {} else {} } else { if w == 4 {} else if w == 5 {} else if w == 6 {} else {} }
    } else {
      if w < 12 { if w == 8 {} else if w == 9 {} else if w == 10 {} else {} } else { if w == 12 {} else if w == 13 {} else if w == 14 {} else {} }
    }
  }

  lemma NoneOf(u: bv16, b0: bv16, b1: bv16, b2: bv16, b3: bv16, b4: bv16, b5: bv16, b6: bv16, b7: bv16, b8: bv16, b9: bv16)
    requires u & b0 == 0 && u & b1 == 0 && u & b2 == 0 && u & b3 == 0 && u & b4 == 0
    requires u & b5 == 0 && u & b6 == 0 && u & b7 == 0 && u & b8 == 0 && u & b9 == 0
    ensures u & (b0 | b1 | b2 | b3 | b4 | b5 | b6 | b7 | b8 | b9) == 0
  {
  }

  lemma NotMarked(used: bv16, windows: set<nat>, w: nat, d: nat)
    requires Marks(used, windows) && (w + d) % RELIABLE_WINDOWS !in windows
    ensures used & Ahead(w, d) == 0
  {
    hide Bit;
    var x := (w + d) % RELIABLE_WINDOWS;
    assert used & Bit(x) != 0 <==> x in windows;
  }

  /** Where none of its windows is marked, it meets no bit. */
  lemma NoneMarked(used: bv16, windows: set<nat>, w: nat)
    requires Marks(used, windows) && w < RELIABLE_WINDOWS
    requires forall d :: 0 <= d < FREE_RELIABLE_WINDOWS + 2 ==> Unused(windows, w, d)
    ensures used & Mask(w) == 0
  {
    hide Mask, Marks, Ahead;
    MaskIsBits(w);
    forall d | 0 <= d < 10 ensures used & Ahead(w, d) == 0 {
      assert Unused(windows, w, d);
      NotMarked(used, windows, w, d);
    }
    NoneOf(used, Ahead(w, 0), Ahead(w, 1), Ahead(w, 2), Ahead(w, 3), Ahead(w, 4),
           Ahead(w, 5), Ahead(w, 6), Ahead(w, 7), Ahead(w, 8), Ahead(w, 9));
  }

  predicate Unused(windows: set<nat>, w: nat, d: nat) { (w + d) % RELIABLE_WINDOWS !in windows }

  lemma MaskedOut(u: bv16, m: bv16, b: bv16)
    requires u & m == 0 && m & b == b
    ensures u & b == 0
  {
  }

  lemma NotInMask(used: bv16, w: nat, d: nat)
    requires w < RELIABLE_WINDOWS && d < FREE_RELIABLE_WINDOWS + 2 && used & Mask(w) == 0
    ensures used & Bit((w + d) % RELIABLE_WINDOWS) == 0
  {
    MaskHas(w, d);
    hide Mask, Bit;
    MaskedOut(used, Mask(w), Bit((w + d) % RELIABLE_WINDOWS));
  }

  /** Where the mask meets no bit, the windows from w on are free. */
  lemma Unmarked(used: bv16, windows: set<nat>, w: nat, d: nat)
    requires Marks(used, windows) && w < RELIABLE_WINDOWS && d < FREE_RELIABLE_WINDOWS + 2 && used & Mask(w) == 0
    ensures (w + d) % RELIABLE_WINDOWS !in windows
  {
    hide Mask, Bit;
    NotInMask(used, w, d);
  }

  // The windows in flight.

  function Slot(n: nat): (w: nat)
    ensures w < RELIABLE_WINDOWS
  {
    Window(n) % RELIABLE_WINDOWS
  }

  ghost function InWindow(flight: set<nat>, w: nat): set<nat> { set n | n in flight && Slot(n) == w }

  /** The commands in flight lie in the newest command's window and the ones before it that the mask leaves out. */
  ghost predicate InReach(flight: set<nat>, top: nat) {
    forall n :: n in flight ==> 1 <= n <= top && Window(top) <= Window(n) + RELIABLE_WINDOWS - FREE_RELIABLE_WINDOWS - 2
  }

  function Busy(counts: seq<nat>): set<nat> { set w | 0 <= w < |counts| && counts[w] > 0 }

  /** reliableWindows counts what is in flight, and a window's bit is set when its count is not zero. */
  ghost predicate Counted(flight: set<nat>, counts: seq<nat>, used: bv16) {
    && |counts| == RELIABLE_WINDOWS && Marks(used, Busy(counts))
    && forall w :: 0 <= w < RELIABLE_WINDOWS ==> counts[w] == |InWindow(flight, w)|
  }

  /** No two commands in flight share a 16-bit number. */
  lemma FlightTells(flight: set<nat>, top: nat, a: nat, b: nat)
    requires InReach(flight, top) && a in flight && b in flight && Wire(a) == Wire(b)
    ensures a == b
  {
    SameWire(a, b);
  }

  /** The window test of enet_protocol_check_outgoing_commands, for a command not sent before. */
  predicate MayStart(counts: seq<nat>, used: bv16, number: nat)
    requires |counts| == RELIABLE_WINDOWS && number < NUMBERS
  {
    number % RELIABLE_WINDOW_SIZE != 0 ||
    (counts[(Window(number) + RELIABLE_WINDOWS - 1) % RELIABLE_WINDOWS] < RELIABLE_WINDOW_SIZE && used & Mask(Window(number)) == 0)
  }

  /** The test keeps everything in flight within reach of the newest command. */
  lemma StartsInReach(flight: set<nat>, top: nat, counts: seq<nat>, used: bv16)
    requires InReach(flight, top) && Counted(flight, counts, used) && MayStart(counts, used, Wire(top + 1))
    ensures InReach(flight + {top + 1}, top + 1) && top + 1 !in flight
  {
    hide Counted, Wire, MayStart;
    var n := top + 1;
    if n % RELIABLE_WINDOW_SIZE == 0 {
      forall m | m in flight ensures Window(n) <= Window(m) + RELIABLE_WINDOWS - FREE_RELIABLE_WINDOWS - 2 {
        StartsAfter(flight, top, counts, used, m);
      }
    }
  }

  lemma StartsAfter(flight: set<nat>, top: nat, counts: seq<nat>, used: bv16, m: nat)
    requires InReach(flight, top) && Counted(flight, counts, used) && MayStart(counts, used, Wire(top + 1)) && m in flight
    requires (top + 1) % RELIABLE_WINDOW_SIZE == 0
    ensures Window(top + 1) <= Window(m) + RELIABLE_WINDOWS - FREE_RELIABLE_WINDOWS - 2
  {
    hide Wire, Marks, MayStart, Slot, Busy;
    var n := top + 1;
    var behind := Window(n) - Window(m);
    InUsedWindow(flight, counts, used, m);
    if behind > RELIABLE_WINDOWS - FREE_RELIABLE_WINDOWS - 2 {
      SlotBehind(n, m, behind);
      StartIsFree(counts, used, n, RELIABLE_WINDOWS - behind);
    }
  }

  lemma SlotBehind(n: nat, m: nat, behind: nat)
    requires Window(n) == Window(m) + behind && behind <= RELIABLE_WINDOWS
    ensures (Slot(n) + RELIABLE_WINDOWS - behind) % RELIABLE_WINDOWS == Slot(m)
  {
    hide Window;
  }

  /** A command that may start a window finds the window, and the next ones, not in use. */
  lemma StartIsFree(counts: seq<nat>, used: bv16, n: nat, d: nat)
    requires |counts| == RELIABLE_WINDOWS && Marks(used, Busy(counts)) && d < FREE_RELIABLE_WINDOWS + 2
    requires MayStart(counts, used, Wire(n)) && n % RELIABLE_WINDOW_SIZE == 0
    ensures (Slot(n) + d) % RELIABLE_WINDOWS !in Busy(counts)
  {
    hide Mask, Marks, Busy;
    WireWindow(n);
    Unmarked(used, Busy(counts), Window(Wire(n)), d);
  }

  lemma InUsedWindow(flight: set<nat>, counts: seq<nat>, used: bv16, n: nat)
    requires Counted(flight, counts, used) && n in flight
    ensures counts[Slot(n)] > 0 && Slot(n) in Busy(counts)
  {
    hide Marks;
    assert n in InWindow(flight, Slot(n));
  }

  /** When a command may start a window, told by what is in flight alone: a command of the window before it has been
      acknowledged, and nothing is in flight from RELIABLE_WINDOWS - FREE_RELIABLE_WINDOWS - 1 windows before it or earlier. */
  ghost predicate MaySendNext(flight: set<nat>, top: nat) {
    var n := top + 1;
    n % RELIABLE_WINDOW_SIZE == 0 ==>
      && (exists m :: 0 <= m <= top && m !in flight && Window(m) + 1 == Window(n))
      && (forall m :: m in flight ==> Window(n) < Window(m) + RELIABLE_WINDOWS - FREE_RELIABLE_WINDOWS - 1)
  }

  /** The window test is that. */
  lemma StartsExactly(flight: set<nat>, top: nat, counts: seq<nat>, used: bv16)
    requires InReach(flight, top) && Counted(flight, counts, used)
    ensures MayStart(counts, used, Wire(top + 1)) <==> MaySendNext(flight, top)
  {
    assert |counts| == RELIABLE_WINDOWS;
    hide Counted, InReach, Wire, MayStart;
    if (top + 1) % RELIABLE_WINDOW_SIZE != 0 {
      WithinWindow(counts, used, top + 1);
    } else {
      if MayStart(counts, used, Wire(top + 1)) { StartIsNext(flight, top, counts, used); }
      if MaySendNext(flight, top) { NextMayStart(flight, top, counts, used); }
    }
  }

  lemma StartIsNext(flight: set<nat>, top: nat, counts: seq<nat>, used: bv16)
    requires InReach(flight, top) && Counted(flight, counts, used) && MayStart(counts, used, Wire(top + 1))
    requires (top + 1) % RELIABLE_WINDOW_SIZE == 0
    ensures MaySendNext(flight, top)
  {
    hide Counted, InReach, Wire, MayStart;
    StartsInReach(flight, top, counts, used);
    MayStartReaches(flight, top);
    SomeAcknowledged(flight, top, counts, used);
  }

  lemma NextMayStart(flight: set<nat>, top: nat, counts: seq<nat>, used: bv16)
    requires InReach(flight, top) && Counted(flight, counts, used) && MaySendNext(flight, top)
    requires (top + 1) % RELIABLE_WINDOW_SIZE == 0
    ensures |counts| == RELIABLE_WINDOWS && MayStart(counts, used, Wire(top + 1))
  {
    assert |counts| == RELIABLE_WINDOWS;
    hide Counted, InReach, Wire, MayStart, Mask, Slot;
    NotFull(flight, top, counts, used);
    NotMasked(flight, top, counts, used);
    FreeStarts(counts, used, top + 1);
  }

  lemma WithinWindow(counts: seq<nat>, used: bv16, n: nat)
    requires |counts| == RELIABLE_WINDOWS && n % RELIABLE_WINDOW_SIZE != 0
    ensures MayStart(counts, used, Wire(n))
  {
    hide Mask;
    WireOffset(n);
  }

  lemma WireOffset(n: nat)
    ensures Wire(n) % RELIABLE_WINDOW_SIZE == n % RELIABLE_WINDOW_SIZE
  {
    WireWindow(n);
  }

  lemma MayStartReaches(flight: set<nat>, top: nat)
    requires InReach(flight + {top + 1}, top + 1)
    ensures forall m :: m in flight ==> Window(top + 1) < Window(m) + RELIABLE_WINDOWS - FREE_RELIABLE_WINDOWS - 1
  {
    forall m | m in flight ensures Window(top + 1) < Window(m) + RELIABLE_WINDOWS - FREE_RELIABLE_WINDOWS - 1 {
      assert m in flight + {top + 1};
    }
  }

  /** The numbers after a up to b. */
  ghost function After(a: nat, b: nat): set<nat> { if b <= a then {} else After(a, b - 1) + {b} }

  lemma {:induction false} AfterHas(a: nat, b: nat)
    ensures forall n :: n in After(a, b) <==> a < n <= b
    ensures |After(a, b)| == if a <= b then b - a else 0
    decreases b
  {
    if a < b { AfterHas(a, b - 1); }
  }

  lemma {:induction false} SubsetSize(a: set<nat>, b: set<nat>)
    requires a <= b
    ensures |a| <= |b|
  {
    if x :| x in a {
      SubsetSize(a - {x}, b - {x});
    }
  }

  /** The RELIABLE_WINDOW_SIZE numbers before n. */
  ghost function LastWindow(n: nat): set<nat>
    requires n >= RELIABLE_WINDOW_SIZE
  {
    After(n - RELIABLE_WINDOW_SIZE, n - 1) + {n - RELIABLE_WINDOW_SIZE}
  }

  lemma LastWindowHas(n: nat)
    requires n >= RELIABLE_WINDOW_SIZE
    ensures forall m :: m in LastWindow(n) <==> n - RELIABLE_WINDOW_SIZE <= m < n
    ensures |LastWindow(n)| == RELIABLE_WINDOW_SIZE
  {
    AfterHas(n - RELIABLE_WINDOW_SIZE, n - 1);
  }

  lemma SlotBefore(n: nat)
    requires n % RELIABLE_WINDOW_SIZE == 0 && n > 0
    ensures (Window(Wire(n)) + RELIABLE_WINDOWS - 1) % RELIABLE_WINDOWS == Slot(n - 1) && Window(n - 1) + 1 == Window(n)
    ensures n >= RELIABLE_WINDOW_SIZE && forall m: nat :: n - RELIABLE_WINDOW_SIZE <= m < n <==> Window(m) + 1 == Window(n)
  {
    WireWindow(n);
  }

  /** A window that is not full in flight has a command that is not in flight. */
  lemma SomeAcknowledged(flight: set<nat>, top: nat, counts: seq<nat>, used: bv16)
    requires Counted(flight, counts, used) && MayStart(counts, used, Wire(top + 1)) && (top + 1) % RELIABLE_WINDOW_SIZE == 0
    ensures exists m :: 0 <= m <= top && m !in flight && Window(m) + 1 == Window(top + 1)
  {
    hide Marks, Mask, Wire;
    var n := top + 1;
    SlotBefore(n);
    WireOffset(n);
    var window := LastWindow(n);
    LastWindowHas(n);
    assert counts[Slot(n - 1)] < RELIABLE_WINDOW_SIZE;
    if window <= flight {
      assert window <= InWindow(flight, Slot(n - 1));
      SubsetSize(window, InWindow(flight, Slot(n - 1)));
    }
    var m :| m in window && m !in flight;
  }

  lemma NotFull(flight: set<nat>, top: nat, counts: seq<nat>, used: bv16)
    requires InReach(flight, top) && Counted(flight, counts, used) && (top + 1) % RELIABLE_WINDOW_SIZE == 0
    requires exists m :: 0 <= m <= top && m !in flight && Window(m) + 1 == Window(top + 1)
    ensures counts[Slot(top)] < RELIABLE_WINDOW_SIZE
  {
    hide Marks;
    var n := top + 1;
    SlotBefore(n);
    var m :| 0 <= m <= top && m !in flight && Window(m) + 1 == Window(n);
    var window := LastWindow(n);
    LastWindowHas(n);
    forall x | x in InWindow(flight, Slot(top)) ensures x in window - {m} { SameSlot(top, x); }
    SubsetSize(InWindow(flight, Slot(top)), window - {m});
  }

  lemma SameSlot(top: nat, m: nat)
    requires m <= top && Window(top) <= Window(m) + RELIABLE_WINDOWS - 1 && Slot(m) == Slot(top)
    ensures Window(m) == Window(top)
  {
    var d := Window(top) / RELIABLE_WINDOWS - Window(m) / RELIABLE_WINDOWS;
    assert Window(top) - Window(m) == d * RELIABLE_WINDOWS;
  }

  lemma NotMasked(flight: set<nat>, top: nat, counts: seq<nat>, used: bv16)
    requires Counted(flight, counts, used) && InReach(flight, top) && (top + 1) % RELIABLE_WINDOW_SIZE == 0
    requires forall m :: m in flight ==> Window(top + 1) < Window(m) + RELIABLE_WINDOWS - FREE_RELIABLE_WINDOWS - 1
    ensures used & Mask(Slot(top + 1)) == 0
  {
    hide Mask, Marks, Slot;
    var n := top + 1;
    forall d | 0 <= d < FREE_RELIABLE_WINDOWS + 2 ensures Unused(Busy(counts), Slot(n), d) {
      if !Unused(Busy(counts), Slot(n), d) {
        var x := (Slot(n) + d) % RELIABLE_WINDOWS;
        assert |InWindow(flight, x)| > 0;
        var m :| m in InWindow(flight, x);
        NotAhead(n, m, d);
      }
    }
    NoneMarked(used, Busy(counts), Slot(n));
  }

  /** A window less than RELIABLE_WINDOWS - FREE_RELIABLE_WINDOWS - 1 before n's is not among those from n's on. */
  lemma NotAhead(n: nat, m: nat, d: nat)
    requires Window(m) < Window(n) < Window(m) + RELIABLE_WINDOWS - FREE_RELIABLE_WINDOWS - 1 && d < FREE_RELIABLE_WINDOWS + 2
    ensures (Slot(n) + d) % RELIABLE_WINDOWS != Slot(m)
  {
    var laps := Window(n) / RELIABLE_WINDOWS - Window(m) / RELIABLE_WINDOWS;
    var behind := Window(n) - Window(m);
    assert behind == laps * RELIABLE_WINDOWS + Slot(n) - Slot(m);
  }

  lemma FreeStarts(counts: seq<nat>, used: bv16, n: nat)
    requires |counts| == RELIABLE_WINDOWS && n % RELIABLE_WINDOW_SIZE == 0 && n > 0
    requires counts[Slot(n - 1)] < RELIABLE_WINDOW_SIZE && used & Mask(Slot(n)) == 0
    ensures MayStart(counts, used, Wire(n))
  {
    hide Mask;
    SlotBefore(n);
    WireWindow(n);
  }

  lemma CountedMore(flight: set<nat>, counts: seq<nat>, used: bv16, n: nat)
    requires Counted(flight, counts, used) && n !in flight
    ensures Counted(flight + {n}, counts[Slot(n) := counts[Slot(n)] + 1], used | Bit(Slot(n)))
  {
    hide Marks, Bit, Slot;
    var s := Slot(n);
    MarkMore(used, Busy(counts), s);
    assert Busy(counts[s := counts[s] + 1]) == Busy(counts) + {s};
    forall w | 0 <= w < RELIABLE_WINDOWS ensures counts[s := counts[s] + 1][w] == |InWindow(flight + {n}, w)| {
      assert InWindow(flight + {n}, w) == if w == s then InWindow(flight, w) + {n} else InWindow(flight, w);
    }
  }

  /** usedReliableWindows when window w loses a command. */
  function Freed(counts: seq<nat>, used: bv16, w: nat): bv16
    requires w < |counts| == RELIABLE_WINDOWS && counts[w] > 0
  {
    if counts[w] == 1 then used & !Bit(w) else used
  }

  lemma CountedLess(flight: set<nat>, counts: seq<nat>, used: bv16, n: nat)
    requires Counted(flight, counts, used) && n in flight
    ensures counts[Slot(n)] > 0
    ensures Counted(flight - {n}, counts[Slot(n) := counts[Slot(n)] - 1], Freed(counts, used, Slot(n)))
  {
    hide Marks, Bit, Slot;
    var s := Slot(n);
    InUsedWindow(flight, counts, used, n);
    MarkLess(used, Busy(counts), s);
    assert Busy(counts[s := counts[s] - 1]) == if counts[s] == 1 then Busy(counts) - {s} else Busy(counts);
    forall w | 0 <= w < RELIABLE_WINDOWS ensures counts[s := counts[s] - 1][w] == |InWindow(flight - {n}, w)| {
      assert InWindow(flight - {n}, w) == if w == s then InWindow(flight, w) - {n} else InWindow(flight, w);
    }
  }

  // The queues.

  datatype Outgoing = Outgoing(number: nat, command: Command, sendAttempts: nat, sentTime: nat, roundTripTimeout: nat)

  ghost predicate IsNumbered(command: Command, n: nat, packets: Packets, limit: nat, i: nat, k: nat) {
    && IsCommand(packets, limit, i, k) && Number(packets, limit, i, k) == n
    && command == CommandOf(packets[i], limit, Start(packets, limit, i), k)
  }

  /** The command is the n-th of the channel's. */
  ghost predicate Carries(o: Outgoing, n: nat, packets: Packets, limit: nat) {
    o.number == Wire(n) && exists i: nat, k: nat :: IsNumbered(o.command, n, packets, limit, i, k)
  }

  lemma CarriesMore(o: Outgoing, n: nat, packets: Packets, more: Packets, limit: nat)
    requires Carries(o, n, packets, limit) && packets <= more
    ensures Carries(o, n, more, limit)
  {
    var i: nat, k: nat :| IsNumbered(o.command, n, packets, limit, i, k);
    SamePrefix(packets, more, limit, i);
    assert IsNumbered(o.command, n, more, limit, i, k);
  }

  function Size(q: seq<Outgoing>): nat {
    if q == [] then 0 else |q[0].command.data| + Size(q[1..])
  }

  lemma {:induction false} SizeJoined(a: seq<Outgoing>, b: seq<Outgoing>)
    ensures Size(a + b) == Size(a) + Size(b)
  {
    if a == [] {
      assert a + b == b;
    } else {
      SizeJoined(a[1..], b);
      assert (a + b)[1..] == a[1..] + b;
    }
  }

  datatype Queues = Queues(sent: seq<Outgoing>, outgoing: seq<Outgoing>)

  /** The numbers of the two queues; the first retries of outgoing have been sent before. */
  datatype Numbers = Numbers(sent: seq<nat>, outgoing: seq<nat>, retries: nat)

  ghost predicate AllCarry(q: seq<Outgoing>, m: seq<nat>, packets: Packets, limit: nat) {
    |q| == |m| && forall j :: 0 <= j < |q| ==> Carries(q[j], m[j], packets, limit)
  }

  /** The first r have been sent before, the others have not. */
  predicate Tried(q: seq<Outgoing>, r: nat) {
    r <= |q| && forall j :: 0 <= j < |q| ==> (q[j].sendAttempts > 0 <==> j < r)
  }

  ghost predicate EntriesOk(q: Queues, m: Numbers, packets: Packets, limit: nat) {
    && AllCarry(q.sent, m.sent, packets, limit) && AllCarry(q.outgoing, m.outgoing, packets, limit)
    && Tried(q.sent, |q.sent|) && Tried(q.outgoing, m.retries)
  }

  /** Commands that have never been sent come in order. */
  ghost predicate InOrder(m: Numbers, top: nat, queued: nat) {
    && m.retries <= |m.outgoing| && top + |m.outgoing| - m.retries == queued
    && forall j :: m.retries <= j < |m.outgoing| ==> m.outgoing[j] == top + 1 + j - m.retries
  }

  /** The others are the commands in flight, each once. */
  ghost predicate Pending(m: Numbers, flight: set<nat>) {
    m.retries <= |m.outgoing| && multiset(m.sent) + multiset(m.outgoing[..m.retries]) == multiset(flight)
  }

  ghost predicate Queued(q: Queues, m: Numbers, packets: Packets, limit: nat, top: nat, queued: nat, flight: set<nat>) {
    EntriesOk(q, m, packets, limit) && InOrder(m, top, queued) && Pending(m, flight)
  }

  function Without<T>(q: seq<T>, at: nat): seq<T>
    requires at < |q|
  {
    q[..at] + q[at + 1..]
  }

  function With<T>(q: seq<T>, at: nat, x: T): seq<T>
    requires at <= |q|
  {
    q[..at] + [x] + q[at..]
  }

  lemma WithoutElements<T>(q: seq<T>, at: nat)
    requires at < |q|
    ensures multiset(Without(q, at)) + multiset{q[at]} == multiset(q)
  {
    assert q == q[..at] + [q[at]] + q[at + 1..];
  }

  lemma WithElements<T>(q: seq<T>, at: nat, x: T)
    requires at <= |q|
    ensures multiset(With(q, at, x)) == multiset(q) + multiset{x}
  {
    assert q == q[..at] + q[at..];
  }

  lemma WithoutSize(q: seq<Outgoing>, at: nat)
    requires at < |q|
    ensures Size(Without(q, at)) + |q[at].command.data| == Size(q)
  {
    assert q == q[..at] + ([q[at]] + q[at + 1..]);
    SizeJoined(q[..at], [q[at]] + q[at + 1..]);
    SizeJoined([q[at]], q[at + 1..]);
    SizeJoined(q[..at], q[at + 1..]);
  }

  /** enet_peer_setup_outgoing_command at the end of outgoing. */
  lemma SetUp(q: Queues, m: Numbers, packets: Packets, limit: nat, top: nat, queued: nat, flight: set<nat>, o: Outgoing)
    requires Queued(q, m, packets, limit, top, queued, flight) && Carries(o, queued + 1, packets, limit) && o.sendAttempts == 0
    ensures Queued(q.(outgoing := q.outgoing + [o]), m.(outgoing := m.outgoing + [queued + 1]), packets, limit, top, queued + 1, flight)
  {
    hide Carries;
    assert (m.outgoing + [queued + 1])[..m.retries] == m.outgoing[..m.retries];
  }

  lemma CarryFirst(q: seq<Outgoing>, m: seq<nat>, packets: Packets, limit: nat, r: nat)
    requires AllCarry(q, m, packets, limit) && Tried(q, r) && q != []
    ensures AllCarry(q[1..], m[1..], packets, limit) && Tried(q[1..], if r > 0 then r - 1 else 0)
  {
    hide Carries;
  }

  lemma CarryLast(q: seq<Outgoing>, m: seq<nat>, packets: Packets, limit: nat, o: Outgoing, n: nat)
    requires AllCarry(q, m, packets, limit) && Tried(q, |q|) && Carries(o, n, packets, limit) && o.sendAttempts > 0
    ensures AllCarry(q + [o], m + [n], packets, limit) && Tried(q + [o], |q| + 1)
  {
    hide Carries;
  }

  lemma PendingAgain(m: Numbers, flight: set<nat>)
    requires Pending(m, flight) && m.retries > 0
    ensures Pending(Numbers(m.sent + [m.outgoing[0]], m.outgoing[1..], m.retries - 1), flight)
  {
    var n, first := m.outgoing[0], m.outgoing[..m.retries];
    assert first == [n] + m.outgoing[1..][..m.retries - 1];
    assert multiset(first) == multiset{n} + multiset(m.outgoing[1..][..m.retries - 1]);
    assert multiset(m.sent + [n]) == multiset(m.sent) + multiset{n};
  }

  lemma PendingMore(m: Numbers, flight: set<nat>, n: nat)
    requires Pending(m, flight) && m.retries == 0 < |m.outgoing| && n !in flight
    ensures Pending(Numbers(m.sent + [n], m.outgoing[1..], 0), flight + {n})
  {
    assert m.outgoing[..0] == [] && m.outgoing[1..][..0] == [];
    assert multiset(m.sent + [n]) == multiset(m.sent) + multiset{n};
    assert multiset(flight + {n}) == multiset(flight) + multiset{n};
  }

  lemma FirstCarries(q: Queues, m: Numbers, packets: Packets, limit: nat, o: Outgoing)
    requires EntriesOk(q, m, packets, limit) && q.outgoing != []
    requires o.number == q.outgoing[0].number && o.command == q.outgoing[0].command
    ensures |m.outgoing| == |q.outgoing| && Carries(o, m.outgoing[0], packets, limit)
  {
    assert Carries(q.outgoing[0], m.outgoing[0], packets, limit);
  }

  /** The first of outgoing is sent once more, or for the first time. */
  lemma SentAgain(q: Queues, m: Numbers, packets: Packets, limit: nat, top: nat, queued: nat, flight: set<nat>, o: Outgoing)
    requires Queued(q, m, packets, limit, top, queued, flight) && m.retries > 0
    requires o.number == q.outgoing[0].number && o.command == q.outgoing[0].command && o.sendAttempts > 0
    ensures Queued(Queues(q.sent + [o], q.outgoing[1..]), Numbers(m.sent + [m.outgoing[0]], m.outgoing[1..], m.retries - 1),
                   packets, limit, top, queued, flight)
  {
    FirstCarries(q, m, packets, limit, o);
    hide Carries, AllCarry, Tried, Pending;
    CarryFirst(q.outgoing, m.outgoing, packets, limit, m.retries);
    CarryLast(q.sent, m.sent, packets, limit, o, m.outgoing[0]);
    PendingAgain(m, flight);
  }

  lemma SentFirst(q: Queues, m: Numbers, packets: Packets, limit: nat, top: nat, queued: nat, flight: set<nat>, o: Outgoing)
    requires Queued(q, m, packets, limit, top, queued, flight) && m.retries == 0 < |q.outgoing| && top + 1 !in flight
    requires o.number == q.outgoing[0].number && o.command == q.outgoing[0].command && o.sendAttempts > 0
    ensures m.outgoing[0] == top + 1
    ensures Queued(Queues(q.sent + [o], q.outgoing[1..]), Numbers(m.sent + [top + 1], m.outgoing[1..], 0),
                   packets, limit, top + 1, queued, flight + {top + 1})
  {
    FirstCarries(q, m, packets, limit, o);
    hide Carries, AllCarry, Tried, Pending;
    CarryFirst(q.outgoing, m.outgoing, packets, limit, 0);
    CarryLast(q.sent, m.sent, packets, limit, o, m.outgoing[0]);
    PendingMore(m, flight, top + 1);
  }

  lemma CarryWithout(q: seq<Outgoing>, m: seq<nat>, packets: Packets, limit: nat, at: nat, r: nat)
    requires AllCarry(q, m, packets, limit) && at < |q| && Tried(q, r)
    ensures AllCarry(Without(q, at), Without(m, at), packets, limit)
    ensures at < r ==> Tried(Without(q, at), r - 1)
    ensures |Without(q, at)| == |q| - 1
  {
    hide Carries;
    forall j | 0 <= j < |q| - 1 ensures Carries(Without(q, at)[j], Without(m, at)[j], packets, limit) {
      var l := if j < at then j else j + 1;
      assert Carries(q[l], m[l], packets, limit);
    }
  }

  lemma CarryWith(q: seq<Outgoing>, m: seq<nat>, packets: Packets, limit: nat, to: nat, o: Outgoing, n: nat, r: nat)
    requires AllCarry(q, m, packets, limit) && Carries(o, n, packets, limit) && to <= r && Tried(q, r) && o.sendAttempts > 0
    ensures AllCarry(With(q, to, o), With(m, to, n), packets, limit) && Tried(With(q, to, o), r + 1)
  {
    hide Carries;
    forall j | 0 <= j < |q| + 1 ensures Carries(With(q, to, o)[j], With(m, to, n)[j], packets, limit) {
      var l := if j < to then j else j - 1;
      if j != to { assert Carries(q[l], m[l], packets, limit); }
    }
  }

  lemma PendingMember(m: Numbers, flight: set<nat>, n: nat)
    requires Pending(m, flight)
    ensures n in flight <==> n in m.sent || n in m.outgoing[..m.retries]
  {
    assert n in flight <==> n in multiset(flight);
  }

  lemma FlightLess(flight: set<nat>, n: nat)
    requires n in flight
    ensures multiset(flight - {n}) + multiset{n} == multiset(flight)
  {
  }

  lemma OneLess(a: multiset<nat>, a': multiset<nat>, b: multiset<nat>, f: multiset<nat>, f': multiset<nat>, n: nat)
    requires a + b == f && a' + multiset{n} == a && f' + multiset{n} == f
    ensures a' + b == f' && b + a' == f'
  {
    forall x ensures (a' + b)[x] == f'[x] && (b + a')[x] == f'[x] {
      assert (a + b)[x] == f[x] && (a' + multiset{n})[x] == a[x] && (f' + multiset{n})[x] == f[x];
    }
  }

  lemma PendingLessSent(m: Numbers, flight: set<nat>, at: nat)
    requires Pending(m, flight) && at < |m.sent|
    ensures m.sent[at] in flight && Pending(m.(sent := Without(m.sent, at)), flight - {m.sent[at]})
  {
    hide Without;
    PendingMember(m, flight, m.sent[at]);
    WithoutElements(m.sent, at);
    FlightLess(flight, m.sent[at]);
    OneLess(multiset(m.sent), multiset(Without(m.sent, at)), multiset(m.outgoing[..m.retries]),
            multiset(flight), multiset(flight - {m.sent[at]}), m.sent[at]);
  }

  lemma PendingLessOutgoing(m: Numbers, top: nat, queued: nat, flight: set<nat>, at: nat)
    requires Pending(m, flight) && InOrder(m, top, queued) && at < m.retries
    ensures m.outgoing[at] in flight
    ensures var m' := Numbers(m.sent, Without(m.outgoing, at), m.retries - 1);
      Pending(m', flight - {m.outgoing[at]}) && InOrder(m', top, queued)
  {
    var n, first := m.outgoing[at], m.outgoing[..m.retries];
    var m' := Numbers(m.sent, Without(m.outgoing, at), m.retries - 1);
    assert m'.outgoing[..m'.retries] == Without(first, at);
    assert first[at] == n && InOrder(m', top, queued);
    hide Without, InOrder;
    PendingMember(m, flight, n);
    WithoutElements(first, at);
    FlightLess(flight, n);
    assert multiset(first) + multiset(m.sent) == multiset(flight);
    OneLess(multiset(first), multiset(Without(first, at)), multiset(m.sent), multiset(flight), multiset(flight - {n}), n);
  }

  lemma PendingMoves(m: Numbers, top: nat, queued: nat, flight: set<nat>, at: nat, to: nat)
    requires Pending(m, flight) && InOrder(m, top, queued) && at < |m.sent| && to <= m.retries
    ensures var m' := Numbers(Without(m.sent, at), With(m.outgoing, to, m.sent[at]), m.retries + 1);
      Pending(m', flight) && InOrder(m', top, queued)
  {
    var n, first := m.sent[at], m.outgoing[..m.retries];
    assert With(m.outgoing, to, n)[..m.retries + 1] == With(first, to, n);
    WithoutElements(m.sent, at);
    WithElements(first, to, n);
  }

  /** A command whose time is up goes from sent to the front of outgoing, behind those that went there before. */
  lemma TimedOut(q: Queues, m: Numbers, packets: Packets, limit: nat, top: nat, queued: nat, flight: set<nat>,
                 at: nat, to: nat, o: Outgoing)
    requires Queued(q, m, packets, limit, top, queued, flight) && at < |q.sent| && to <= m.retries
    requires o.number == q.sent[at].number && o.command == q.sent[at].command && o.sendAttempts > 0
    ensures Queued(Queues(Without(q.sent, at), With(q.outgoing, to, o)),
                   Numbers(Without(m.sent, at), With(m.outgoing, to, m.sent[at]), m.retries + 1),
                   packets, limit, top, queued, flight)
  {
    assert Carries(o, m.sent[at], packets, limit) by { assert Carries(q.sent[at], m.sent[at], packets, limit); }
    assert |q.sent| == |m.sent|;
    hide Carries, Without, With, AllCarry, Tried, Pending, InOrder;
    CarryWithout(q.sent, m.sent, packets, limit, at, |q.sent|);
    CarryWith(q.outgoing, m.outgoing, packets, limit, to, o, m.sent[at], m.retries);
    PendingMoves(m, top, queued, flight, at, to);
  }

  /** An acknowledged command leaves its queue. */
  lemma AckedSent(q: Queues, m: Numbers, packets: Packets, limit: nat, top: nat, queued: nat, flight: set<nat>, at: nat)
    requires Queued(q, m, packets, limit, top, queued, flight) && at < |q.sent|
    ensures m.sent[at] in flight
    ensures Queued(q.(sent := Without(q.sent, at)), m.(sent := Without(m.sent, at)), packets, limit, top, queued, flight - {m.sent[at]})
  {
    assert |q.sent| == |m.sent|;
    hide Carries, Without, AllCarry, Tried, Pending;
    CarryWithout(q.sent, m.sent, packets, limit, at, |q.sent|);
    PendingLessSent(m, flight, at);
  }

  lemma AckedOutgoing(q: Queues, m: Numbers, packets: Packets, limit: nat, top: nat, queued: nat, flight: set<nat>, at: nat)
    requires Queued(q, m, packets, limit, top, queued, flight) && at < m.retries
    ensures m.outgoing[at] in flight
    ensures Queued(q.(outgoing := Without(q.outgoing, at)), Numbers(m.sent, Without(m.outgoing, at), m.retries - 1),
                   packets, limit, top, queued, flight - {m.outgoing[at]})
  {
    assert |q.outgoing| == |m.outgoing| && m.retries <= |q.outgoing|;
    hide Carries, Without, AllCarry, Tried, Pending, InOrder;
    CarryWithout(q.outgoing, m.outgoing, packets, limit, at, m.retries);
    PendingLessOutgoing(m, top, queued, flight, at);
  }
}
