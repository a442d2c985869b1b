/** The two state-holding hooks of src/hooks.js with behaviour of their own:
    `useToggle` and `useCountdown`. The countdown's timer is abstracted to a
    single `Tick` step, one per run of its effect. */
module Hooks {
  import opened Optional

  /** `useToggle(initialValue = false)`: the initial state. */
  function InitialToggle(initialValue: Option<bool>): (r: bool)
    ensures initialValue.None? ==> !r
    ensures initialValue.Some? ==> r == initialValue.value
  {
    OrDefault(initialValue, false)
  }

  /** `toggle`: negate the current value. */
  function Toggle(v: bool): (r: bool)
    ensures r != v
  {
    !v
  }

  /** Toggling twice restores the value. */
  lemma ToggleTwice(v: bool)
    ensures Toggle(Toggle(v)) == v
  {
  }

  /** The countdown hook's state; `initialValue` is the argument it was
      called with, which `reset` returns to. */
  datatype Countdown = Countdown(initialValue: int, count: int, isActive: bool)

  /** The default starting count. */
  const DefaultCountdownStart := 10

  /** `useCountdown(initialValue = 10)`: the count starts at the initial
      value and the countdown starts inactive. */
  function StartCountdown(initialValue: Option<int>): (r: Countdown)
    ensures initialValue.None? ==> r.initialValue == DefaultCountdownStart
    ensures initialValue.Some? ==> r.initialValue == initialValue.value
    ensures r.count == r.initialValue && !r.isActive
  {
    var start := OrDefault(initialValue, DefaultCountdownStart);
    Countdown(start, start, false)
  }

  /** `reset`: back to the initial value, and running. */
  function Reset(c: Countdown): (r: Countdown)
    ensures r.count == c.initialValue && r.isActive
    ensures r.initialValue == c.initialValue
  {
    c.(count := c.initialValue, isActive := true)
  }

  /** `stop`: pause, keeping the count. */
  function Stop(c: Countdown): (r: Countdown)
    ensures !r.isActive
    ensures r.count == c.count && r.initialValue == c.initialValue
  {
    c.(isActive := false)
  }

  /** One run of the effect: while running with a positive count, the
      interval lowers the count by one; at zero the countdown switches itself
      off; in every other state nothing happens. */
  function Tick(c: Countdown): (r: Countdown)
    ensures r.initialValue == c.initialValue
    ensures r.count == (if c.isActive && c.count > 0 then c.count - 1 else c.count)
    ensures r.isActive == (c.isActive && c.count != 0)
  {
    if c.isActive && c.count > 0 then c.(count := c.count - 1)
    else if c.count == 0 then c.(isActive := false)
    else c
  }

  /** `n` effect runs in a row. */
  function Ticks(c: Countdown, n: nat): Countdown
    decreases n
  {
    if n == 0 then c else Ticks(Tick(c), n - 1)
  }

  /** A countdown that is not running stays exactly as it is: in particular
      nothing is counted down between the hook's start and the first `reset`,
      or after a `stop`. */
  lemma {:induction false} InactiveIsStable(c: Countdown, n: nat)
    requires !c.isActive
    ensures Ticks(c, n) == c
    decreases n
  {
    if n > 0 {
      InactiveIsStable(Tick(c), n - 1);
    }
  }

  /** Counting never goes below zero from a non-negative count, and never
      goes up. */
  lemma {:induction false} TicksStayInBounds(c: Countdown, n: nat)
    requires c.count >= 0
    ensures 0 <= Ticks(c, n).count <= c.count
    ensures Ticks(c, n).initialValue == c.initialValue
    decreases n
  {
    if n > 0 {
      TicksStayInBounds(Tick(c), n - 1);
    }
  }

  /** A running countdown from a non-negative count reaches zero and
      switches itself off after one effect run per unit plus one. */
  lemma {:induction false} CountdownRunsOut(c: Countdown)
    requires c.isActive && c.count >= 0
    ensures Ticks(c, c.count + 1) == c.(count := 0, isActive := false)
    decreases c.count
  {
    if c.count > 0 {
      CountdownRunsOut(Tick(c));
    }
  }

  /** After `reset` from a non-negative initial value, the countdown is
      running for exactly `initialValue` effect runs, and the next run
      switches it off at zero. */
  lemma ResetCountsDownFromInitial(c: Countdown, n: nat)
    requires c.initialValue >= 0 && n <= c.initialValue
    ensures Ticks(Reset(c), n).count == c.initialValue - n
    ensures Ticks(Reset(c), n).isActive
    ensures Ticks(Reset(c), c.initialValue + 1) == Reset(c).(count := 0, isActive := false)
  {
    CountsDownWhileRunning(Reset(c), n);
    CountdownRunsOut(Reset(c));
  }

  /** While the count lasts, each effect run of a running countdown takes
      exactly one off it and keeps it running. */
  lemma {:induction false} CountsDownWhileRunning(c: Countdown, n: nat)
    requires c.isActive && n <= c.count
    ensures Ticks(c, n) == c.(count := c.count - n)
    decreases n
  {
    if n > 0 {
      CountsDownWhileRunning(Tick(c), n - 1);
    }
  }

  /** A negative count is never counted and never switched off: the effect
      only acts on a positive or zero count. */
  lemma {:induction false} NegativeCountIsStuck(c: Countdown, n: nat)
    requires c.count < 0
    ensures Ticks(c, n) == c
    decreases n
  {
    if n > 0 {
      NegativeCountIsStuck(Tick(c), n - 1);
    }
  }
}
