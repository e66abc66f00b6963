/** The breathing bubble of the dashboard: a two-minute countdown that runs a
    4-4-6 second cycle of inhale, hold and exhale. The countdown, the pause and
    resume button, the reset button and the phase shown are modelled; the
    intervals that drive them become methods the environment calls (`Tick` once
    a second, `UpdatePhase` every tenth of a second, `FinishIfDone` after each
    change), and the animation styles are left out. */
module BreathingAnimation {
  import opened Wrappers
  import opened Strings
  import opened Countdown

  const InhaleSeconds: nat := 4
  const HoldSeconds: nat := 4
  const ExhaleSeconds: nat := 6
  const CycleSeconds: nat := InhaleSeconds + HoldSeconds + ExhaleSeconds
  /** The session length, two minutes. */
  const SessionSeconds: nat := 120

  datatype Phase = Inhale | Hold | Exhale

  /** JavaScript's `a % b` for `b > 0`: the remainder of division truncated
      toward zero, which takes the sign of `a`. */
  function JsRem(a: int, b: int): (r: int)
    requires b > 0
    ensures a >= 0 ==> r == a % b
    ensures a < 0 ==> -b < r <= 0
  {
    if a >= 0 then a % b else -((-a) % b)
  }

  // ---------------------------------------------------------------------------
  // The phase

  /** The phase shown `elapsed` seconds into the session. */
  function PhaseAt(elapsed: int): Phase {
    var e := JsRem(elapsed, CycleSeconds);
    if e < InhaleSeconds then Inhale
    else if e < InhaleSeconds + HoldSeconds then Hold
    else Exhale
  }

  /** The phase repeats every cycle. */
  lemma PhasePeriodic(elapsed: nat, k: nat)
    ensures PhaseAt(elapsed + k * CycleSeconds) == PhaseAt(elapsed)
  {
    assert (elapsed + k * CycleSeconds) % CycleSeconds == elapsed % CycleSeconds;
  }

  /** The number of seconds `e` with `from <= e < from + n` shown in phase `p`. */
  function SecondsIn(p: Phase, from: int, n: nat): (r: nat)
    ensures r <= n
  {
    if n == 0 then 0
    else SecondsIn(p, from, n - 1) + (if PhaseAt(from + n - 1) == p then 1 else 0)
  }

  /** Second `m` of a cycle starting at `base` shows the phase of second `m`
      of the first cycle. */
  lemma PhaseInCycle(k: nat, m: nat)
    ensures PhaseAt(k * CycleSeconds + m) == PhaseAt(m)
  {
    PhasePeriodic(m, k);
    assert k * CycleSeconds + m == m + k * CycleSeconds;
  }

  lemma EarlyRem(e: nat)
    requires e < CycleSeconds
    ensures JsRem(e, CycleSeconds) == e
  {
  }

  /** The first `n` seconds of any cycle: inhale for the first 4, hold for
      the next 4, exhale for the last 6. */
  lemma {:induction false} CycleCounts(k: nat, base: nat, n: nat)
    requires base == k * CycleSeconds && n <= CycleSeconds
    ensures SecondsIn(Inhale, base, n) == if n < InhaleSeconds then n else InhaleSeconds
    ensures SecondsIn(Hold, base, n)
         == if n < InhaleSeconds then 0 else if n < InhaleSeconds + HoldSeconds then n - InhaleSeconds else HoldSeconds
    ensures SecondsIn(Exhale, base, n)
         == if n < InhaleSeconds + HoldSeconds then 0 else n - InhaleSeconds - HoldSeconds
  {
    if n > 0 {
      CycleCounts(k, base, n - 1);
      PhaseInCycle(k, n - 1);
      assert base + n - 1 == k * CycleSeconds + (n - 1);
      EarlyRem(n - 1);
    }
  }

  /** Every cycle of a session shows 4 seconds of inhale, 4 of hold and 6 of
      exhale. */
  lemma CycleMakeUp(k: nat)
    ensures SecondsIn(Inhale, k * CycleSeconds, CycleSeconds) == InhaleSeconds
    ensures SecondsIn(Hold, k * CycleSeconds, CycleSeconds) == HoldSeconds
    ensures SecondsIn(Exhale, k * CycleSeconds, CycleSeconds) == ExhaleSeconds
  {
    CycleCounts(k, k * CycleSeconds, CycleSeconds);
  }

  /** Within cycle `k` the phases come in order: inhale, then hold, then
      exhale. */
  lemma CycleOrder(k: nat, t: int)
    requires k * CycleSeconds <= t < k * CycleSeconds + CycleSeconds
    ensures var e := t - k * CycleSeconds;
      PhaseAt(t) == if e < InhaleSeconds then Inhale else if e < InhaleSeconds + HoldSeconds then Hold else Exhale
  {
    var e := t - k * CycleSeconds;
    PhasePeriodic(e, k);
    assert t == e + k * CycleSeconds;
  }

  /** The elapsed time is negative only when `timeLeft > totalTime`, which the
      component never reaches; the truncating remainder is then not positive
      and the phase shown is inhale. */
  lemma NegativeElapsedInhales(elapsed: int)
    requires elapsed < 0
    ensures PhaseAt(elapsed) == Inhale
  {
  }

  // ---------------------------------------------------------------------------
  // The clock text

  /** `formatTime(seconds)`: whole minutes, a colon, and the remaining seconds
      padded to two digits. */
  function FormatTime(seconds: nat): string {
    NatToString(seconds / 60) + ":" + PadTwo(NatToString(seconds % 60))
  }

  /** Reads an `m:ss` clock text back into seconds; `None` unless it is a run of
      digits, a colon, and two digits below 60. */
  function ParseTime(t: string): (r: Option<nat>)
    ensures r.Some? ==> ':' in t
  {
    match IndexOf(t, ':')
    case None => None
    case Some(i) =>
      var m, s := ParseNat(t[..i]), ParseNat(t[i + 1..]);
      if |t[i + 1..]| == 2 && m.Some? && s.Some? && s.value < 60 then Some(m.value * 60 + s.value)
      else None
  }

  lemma PadTwoDigits(n: nat)
    requires n < 100
    ensures |PadTwo(NatToString(n))| == 2
    ensures ParseNat(PadTwo(NatToString(n))) == Some(n)
  {
    var s := NatToString(n);
    if n < 10 {
      var p := PadTwo(s);
      assert p == ['0'] + s;
      assert p[..1] == "0";
      assert DigitsValue(p[..1]) == 0;
      assert DigitValue(p[1]) == n;
    } else {
      assert s == NatToString(n / 10) + [DigitChar(n % 10)];
      assert n / 10 < 10;
      assert |s| == 2;
      ParseNatToString(n);
    }
  }

  lemma ParseClock(m: string, s: string, u: nat, v: nat, n: nat)
    requires ParseNat(m) == Some(u) && ParseNat(s) == Some(v) && |s| == 2 && v < 60
    requires n == u * 60 + v
    ensures ParseTime(m + ":" + s) == Some(n)
  {
    var t := m + ":" + s;
    assert ':' !in m by {
      forall i | 0 <= i < |m| ensures m[i] != ':' { assert IsDigit(m[i]); }
    }
    assert t == m + [':'] + s;
    IndexOfAfter(m, ':', s);
    assert t[..|m|] == m && t[|m| + 1..] == s;
  }

  /** The text of `q` minutes and `r` seconds reads back to `q * 60 + r`. */
  lemma ClockText(q: nat, r: nat, n: nat)
    requires r < 60 && n == q * 60 + r
    ensures ParseTime(NatToString(q) + ":" + PadTwo(NatToString(r))) == Some(n)
  {
    var m, s := NatToString(q), PadTwo(NatToString(r));
    assert ParseNat(m) == Some(q) by { ParseNatToString(q); }
    assert ParseNat(s) == Some(r) && |s| == 2 by { PadTwoDigits(r); }
    ParseClock(m, s, q, r, n);
  }

  /** The clock text reads back to the seconds it shows: minutes times 60 plus
      the two-digit seconds. */
  lemma FormatTimeRoundTrip(seconds: nat)
    ensures ParseTime(FormatTime(seconds)) == Some(seconds)
  {
    ClockText(seconds / 60, seconds % 60, seconds);
  }

  /** Distinct times show distinct clock texts. */
  lemma FormatTimeInjective(a: nat, b: nat)
    requires FormatTime(a) == FormatTime(b)
    ensures a == b
  {
    FormatTimeRoundTrip(a);
    FormatTimeRoundTrip(b);
  }

  // ---------------------------------------------------------------------------
  // The component state

  class BreathingBubble {
    var isActive: bool
    var phase: Phase
    var timeLeft: int
    var totalTime: int

    /** Between events the countdown stays within the session. */
    predicate Valid()
      reads this
    {
      totalTime == SessionSeconds && 0 <= timeLeft <= totalTime
    }

    /** Mounting: paused, inhale, nothing left, a two-minute session. */
    constructor ()
      ensures Valid()
      ensures !isActive && phase == Inhale && timeLeft == 0 && totalTime == SessionSeconds
    {
      isActive := false;
      phase := Inhale;
      timeLeft := 0;
      totalTime := SessionSeconds;
    }

    /** The once-a-second interval, installed only while active. */
    method Tick()
      requires isActive && Valid()
      modifies this
      ensures Valid()
      ensures timeLeft == TickValue(old(timeLeft))
      ensures timeLeft == if old(timeLeft) >= 1 then old(timeLeft) - 1 else 0
      ensures isActive == old(isActive) && phase == old(phase) && totalTime == old(totalTime)
    {
      timeLeft := TickValue(timeLeft);
    }

    /** The effect that stops an active session whose countdown reached zero. */
    method FinishIfDone()
      modifies this
      ensures isActive == (old(isActive) && old(timeLeft) != 0)
      ensures timeLeft == old(timeLeft) && phase == old(phase) && totalTime == old(totalTime)
    {
      if timeLeft == 0 && isActive {
        isActive := false;
      }
    }

    /** The tenth-of-a-second interval, installed only while active: the phase
        follows the seconds elapsed since the session began. */
    method UpdatePhase()
      requires isActive
      modifies this
      ensures phase == PhaseAt(totalTime - timeLeft)
      ensures isActive == old(isActive) && timeLeft == old(timeLeft) && totalTime == old(totalTime)
    {
      var currentCycleTime := JsRem(totalTime - timeLeft, CycleSeconds);
      if currentCycleTime < InhaleSeconds {
        phase := Inhale;
      } else if currentCycleTime < InhaleSeconds + HoldSeconds {
        phase := Hold;
      } else {
        phase := Exhale;
      }
    }

    /** `toggleTimer`: starting a finished session first reloads the full time;
        the button always flips between running and paused. */
    method Toggle()
      requires Valid()
      modifies this
      ensures Valid()
      ensures isActive == !old(isActive)
      ensures timeLeft == if !old(isActive) && old(timeLeft) == 0 then totalTime else old(timeLeft)
      ensures isActive ==> timeLeft > 0
      ensures phase == old(phase) && totalTime == old(totalTime)
    {
      if !isActive && timeLeft == 0 {
        timeLeft := totalTime;
      }
      isActive := !isActive;
    }

    /** `resetTimer`: paused, the full session left, inhale. */
    method Reset()
      requires Valid()
      modifies this
      ensures Valid()
      ensures !isActive && timeLeft == totalTime && phase == Inhale && totalTime == old(totalTime)
    {
      isActive := false;
      timeLeft := totalTime;
      phase := Inhale;
    }
  }

  /** A session started from a full countdown shows, after `k` ticks, the phase
      of second `k`; it reaches zero after exactly `SessionSeconds` ticks. */
  lemma SessionPhase(k: nat)
    requires k <= SessionSeconds
    ensures SessionSeconds - Ticks(SessionSeconds, k) == k
    ensures PhaseAt(SessionSeconds - Ticks(SessionSeconds, k)) == PhaseAt(k)
    ensures Ticks(SessionSeconds, k) == 0 <==> k == SessionSeconds
  {
    TicksFloor(SessionSeconds, k);
  }
}
