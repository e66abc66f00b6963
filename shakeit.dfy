/** The "shake it out" countdown of the dashboard. The player picks a length
    in steps of five seconds, starts the countdown, and is told when it ends;
    the optional `onComplete` callback is recorded as a count of its calls.
    Sounds, the mute button and the animations are left out. The once-a-second
    interval (installed only while active with time left) and the effect that
    completes a finished countdown become the methods `Tick` and `Settle`,
    which the environment calls. */
module Shakeit {
  import opened Countdown

  /** The adjustment step of the -5s and +5s buttons. */
  const Step: int := 5

  class ShakeTimer {
    var seconds: int
    var isActive: bool
    var isComplete: bool
    var inputTime: int
    /** How many times `onComplete` has been called. */
    var completions: nat

    /** Time never runs below zero, the chosen length stays positive, and a
        completed countdown is not running. */
    predicate Valid()
      reads this
    {
      seconds >= 0 && inputTime > 0 && (isComplete ==> !isActive)
    }

    /** Mounting with the `defaultSeconds` prop. */
    constructor (defaultSeconds: int)
      ensures seconds == defaultSeconds && inputTime == defaultSeconds
      ensures !isActive && !isComplete && completions == 0
      ensures defaultSeconds > 0 ==> Valid()
    {
      seconds := defaultSeconds;
      isActive := false;
      isComplete := false;
      inputTime := defaultSeconds;
      completions := 0;
    }

    /** One second of the interval, which runs only while active with time
        left. */
    method Tick()
      requires Valid() && isActive && seconds > 0
      modifies this
      ensures Valid()
      ensures seconds == TickValue(old(seconds)) && seconds == old(seconds) - 1
      ensures isActive == old(isActive) && isComplete == old(isComplete)
      ensures inputTime == old(inputTime) && completions == old(completions)
    {
      seconds := TickValue(seconds);
    }

    /** The effect's other branch: an active countdown at zero stops, is marked
        complete and calls `onComplete` once. */
    method Settle()
      requires Valid()
      modifies this
      ensures Valid()
      ensures old(isActive) && old(seconds) == 0 ==>
                !isActive && isComplete && completions == old(completions) + 1
      ensures !(old(isActive) && old(seconds) == 0) ==>
                isActive == old(isActive) && isComplete == old(isComplete) && completions == old(completions)
      ensures seconds == old(seconds) && inputTime == old(inputTime)
    {
      if isActive && seconds == 0 {
        isActive := false;
        isComplete := true;
        completions := completions + 1;
      }
    }

    /** `startTimer`: running, no longer complete; the time left is kept. */
    method Start()
      requires Valid()
      modifies this
      ensures Valid()
      ensures isActive && !isComplete
      ensures seconds == old(seconds) && inputTime == old(inputTime) && completions == old(completions)
    {
      isActive := true;
      isComplete := false;
    }

    /** The Start/Restart button with the countdown reloaded when it has run
        out: a restart after completion counts the chosen length down again. */
    method Restart()
      requires Valid()
      modifies this
      ensures Valid()
      ensures isActive && !isComplete && seconds > 0
      ensures seconds == if old(seconds) == 0 then inputTime else old(seconds)
      ensures inputTime == old(inputTime) && completions == old(completions)
    {
      if seconds == 0 {
        seconds := inputTime;
      }
      isActive := true;
      isComplete := false;
    }

    /** `resetTimer`: the chosen length again, stopped, not complete. */
    method Reset()
      requires Valid()
      modifies this
      ensures Valid()
      ensures seconds == inputTime && !isActive && !isComplete
      ensures inputTime == old(inputTime) && completions == old(completions)
    {
      seconds := inputTime;
      isActive := false;
      isComplete := false;
    }

    /** `incrementTime`: while stopped, five seconds more, shown at once. */
    method Increment()
      requires Valid()
      modifies this
      ensures Valid()
      ensures !old(isActive) ==> inputTime == old(inputTime) + Step && seconds == inputTime
      ensures old(isActive) ==> inputTime == old(inputTime) && seconds == old(seconds)
      ensures isActive == old(isActive) && isComplete == old(isComplete) && completions == old(completions)
    {
      if !isActive {
        var newTime := inputTime + Step;
        inputTime := newTime;
        seconds := newTime;
      }
    }

    /** `decrementTime`: while stopped and above five seconds, five seconds
        less, shown at once; the chosen length never drops to zero. */
    method Decrement()
      requires Valid()
      modifies this
      ensures Valid()
      ensures !old(isActive) && old(inputTime) > Step ==>
                inputTime == old(inputTime) - Step && seconds == inputTime
      ensures !(!old(isActive) && old(inputTime) > Step) ==>
                inputTime == old(inputTime) && seconds == old(seconds)
      ensures isActive == old(isActive) && isComplete == old(isComplete) && completions == old(completions)
    {
      if !isActive && inputTime > Step {
        var newTime := inputTime - Step;
        inputTime := newTime;
        seconds := newTime;
      }
    }
  }

  /** A started countdown of `n` seconds completes after exactly `n` ticks and
      calls `onComplete` once. */
  method RunSession(t: ShakeTimer)
    requires t.Valid() && !t.isActive
    modifies t
    ensures t.Valid()
    ensures !t.isActive && t.isComplete && t.seconds == 0
    ensures t.inputTime == old(t.inputTime)
    ensures t.completions == old(t.completions) + 1
  {
    t.Reset();
    t.Start();
    var n := t.seconds;
    var i := 0;
    while t.seconds > 0
      invariant t.Valid() && t.isActive && !t.isComplete
      invariant 0 <= i <= n && t.seconds == Ticks(n, i) == n - i
      invariant t.inputTime == old(t.inputTime) && t.completions == old(t.completions)
      decreases t.seconds
    {
      t.Tick();
      i := i + 1;
    }
    t.Settle();
  }

  /** The "Restart" button shown after completion calls `startTimer`, which
      keeps the time left at zero: the completion effect fires again at once,
      calling `onComplete` a second time without any countdown. */
  method RestartAsWritten(t: ShakeTimer)
    requires t.Valid() && t.isComplete && t.seconds == 0
    modifies t
    ensures !t.isActive && t.isComplete && t.seconds == 0
    ensures t.completions == old(t.completions) + 1
  {
    t.Start();
    t.Settle();
  }

  /** With the countdown reloaded, the same button starts a new countdown and
      the completion effect does not fire. */
  method RestartCorrected(t: ShakeTimer)
    requires t.Valid() && t.isComplete && t.seconds == 0
    modifies t
    ensures t.isActive && !t.isComplete && t.seconds == t.inputTime > 0
    ensures t.completions == old(t.completions)
  {
    t.Restart();
    t.Settle();
  }
}
