/** The one-second countdown step shared by the breathing and the shaking
    timers: `prev <= 1 ? 0 : prev - 1`. */
module Countdown {
  /** One second of countdown. */
  function TickValue(prev: int): (r: int)
    ensures r >= 0
    ensures prev >= 1 ==> r == prev - 1
  {
    if prev <= 1 then 0 else prev - 1
  }

  /** `n` seconds of countdown from `t`. */
  function Ticks(t: int, n: nat): int {
    if n == 0 then t else TickValue(Ticks(t, n - 1))
  }

  /** The countdown loses one second per tick and stops at zero: from `t` it
      reaches zero after exactly `t` ticks and stays there. */
  lemma {:induction false} TicksFloor(t: nat, n: nat)
    ensures Ticks(t, n) == if n <= t then t - n else 0
  {
    if n > 0 {
      TicksFloor(t, n - 1);
    }
  }
}
