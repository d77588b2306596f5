/** 16-bit reliable sequence numbers and the windows they fall in, against the numbers as if they never wrapped. */
module SequenceNumbers {
  const RELIABLE_WINDOWS := 16
  const RELIABLE_WINDOW_SIZE := 0x1000
  const FREE_RELIABLE_WINDOWS := 8
  const NUMBERS := 0x1_0000

  /** A number as it is sent. */
  function Wire(n: nat): (r: nat)
    ensures r < NUMBERS
  {
    n % NUMBERS
  }

  function Window(n: nat): nat { n / RELIABLE_WINDOW_SIZE }

  /** reliableWindow - currentWindow, as the receiver computes it. */
  function WindowsAhead(number: nat, current: nat): int {
    Window(number) + (if number < current then RELIABLE_WINDOWS else 0) - Window(current)
  }

  /** The receiver takes the number: inside its windows, and not the one it had last. */
  predicate Accepts(number: nat, current: nat) {
    0 <= WindowsAhead(number, current) < FREE_RELIABLE_WINDOWS - 1 && number != current
  }

  /** The receiver acknowledges the number. */
  predicate Acknowledges(number: nat, current: nat) {
    !(FREE_RELIABLE_WINDOWS - 1 <= WindowsAhead(number, current) <= FREE_RELIABLE_WINDOWS)
  }

  /** The oldest copies a network may still deliver. */
  predicate Recent(n: nat, current: nat) {
    Window(current) <= Window(n) + RELIABLE_WINDOWS - FREE_RELIABLE_WINDOWS + 1
  }

  lemma WireWindow(n: nat)
    ensures Window(Wire(n)) == Window(n) % RELIABLE_WINDOWS
    ensures n == n / NUMBERS * NUMBERS + Wire(n) && Window(n) == n / NUMBERS * RELIABLE_WINDOWS + Window(Wire(n))
  {
  }

  /** Ahead of the receiver the wrapped numbers tell the true distance. */
  lemma AheadIsTrue(n: nat, current: nat)
    requires current <= n < current + NUMBERS
    ensures WindowsAhead(Wire(n), Wire(current)) == Window(n) - Window(current)
    ensures Wire(n) == Wire(current) <==> n == current
  {
    WireWindow(n);
    WireWindow(current);
  }

  /** A copy from behind is taken for a new command exactly when its window is one of these. */
  lemma StaleCopies(n: nat, current: nat)
    requires n < current
    ensures var behind := (Window(current) - Window(n)) % RELIABLE_WINDOWS;
      Accepts(Wire(n), Wire(current)) <==>
        behind > RELIABLE_WINDOWS - FREE_RELIABLE_WINDOWS + 1 || (behind == 0 && Wire(n) > Wire(current))
  {
    WireWindow(n);
    WireWindow(current);
    var laps := current / NUMBERS - n / NUMBERS;
    assert Window(current) - Window(n) == laps * RELIABLE_WINDOWS + (Window(Wire(current)) - Window(Wire(n)));
  }

  /** With copies recent enough, the wrapped test is the true one. */
  lemma AcceptsIsTrue(n: nat, current: nat)
    requires Recent(n, current) && n < current + NUMBERS
    ensures Accepts(Wire(n), Wire(current)) <==>
      current < n && Window(n) < Window(current) + FREE_RELIABLE_WINDOWS - 1
  {
    if current <= n {
      AheadIsTrue(n, current);
    } else {
      StaleCopies(n, current);
      WireWindow(n);
      WireWindow(current);
    }
  }

  /** One window older, and a copy of a delivered command is taken for a new one. */
  lemma OlderIsNotTrue()
    ensures !Recent(1, 10 * RELIABLE_WINDOW_SIZE) && Accepts(Wire(1), Wire(10 * RELIABLE_WINDOW_SIZE))
  {
  }

  /** A command from ahead that is not taken is acknowledged exactly when it is further ahead than FREE_RELIABLE_WINDOWS. */
  lemma AcknowledgesIsTrue(n: nat, current: nat)
    requires current < n < current + NUMBERS && !Accepts(Wire(n), Wire(current))
    ensures Acknowledges(Wire(n), Wire(current)) <==> Window(n) > Window(current) + FREE_RELIABLE_WINDOWS
  {
    AheadIsTrue(n, current);
  }

  /** Numbers ahead of the receiver compare as in its search loops: those that have wrapped come last. */
  predicate Before(a: nat, b: nat, current: nat) {
    if b >= current then a >= current && a < b else a >= current || a < b
  }

  /** How far a number ahead of the receiver is, by the wrapped numbers alone. */
  lemma DistanceIsTrue(n: nat, current: nat)
    requires current <= n < current + NUMBERS
    ensures n - current == Wire(n) - Wire(current) + (if Wire(n) < Wire(current) then NUMBERS else 0)
  {
  }

  lemma BeforeIsTrue(a: nat, b: nat, current: nat)
    requires current < a < current + NUMBERS && current < b < current + NUMBERS
    ensures Before(Wire(a), Wire(b), Wire(current)) <==> a < b
    ensures Wire(a) == Wire(b) <==> a == b
  {
    hide Wire;
    DistanceIsTrue(a, current);
    DistanceIsTrue(b, current);
  }

  lemma SameWire(a: nat, b: nat)
    requires Wire(a) == Wire(b) && a < b + NUMBERS && b < a + NUMBERS
    ensures a == b
  {
  }

  lemma WireNext(n: nat)
    ensures (Wire(n) + 1) % NUMBERS == Wire(n + 1)
  {
  }

  lemma WireAdds(n: nat, k: nat)
    ensures (Wire(n) + k) % NUMBERS == Wire(n + k)
  {
  }
}
