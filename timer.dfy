/** The countdown of the exam page (prova/script.js, `startTimer` and
    `updateTimerDisplay`): what repeated firings of the one-second interval do
    to the remaining time, and how the remaining time is split for display. */
module Timer {

  /** The remaining seconds and whether the interval is still scheduled. */
  datatype Countdown = Countdown(timeLeft: int, running: bool)

  /** One firing of the interval callback: one second less, and the interval is
      cleared once the remaining time is at or below zero. */
  function Fire(c: Countdown): Countdown
  {
    var t := c.timeLeft - 1;
    Countdown(t, t > 0)
  }

  /** The countdown after an interval started with `seconds` has had `n`
      occasions to fire; a cleared interval never fires again. */
  function AfterTicks(seconds: int, n: nat): Countdown
  {
    if n == 0 then Countdown(seconds, true)
    else
      var c := AfterTicks(seconds, n - 1);
      if c.running then Fire(c) else c
  }

  /** Started with at least one second, the countdown runs for exactly
      `seconds` firings, stops at zero and never goes below it. */
  lemma {:induction false} CountdownReachesZero(seconds: int, n: nat)
    requires seconds >= 1
    ensures AfterTicks(seconds, n) == if n < seconds then Countdown(seconds - n, true) else Countdown(0, false)
  {
    if n > 0 {
      CountdownReachesZero(seconds, n - 1);
    }
  }

  /** Started with zero or fewer seconds, the interval still fires once, leaving
      the remaining time one below where it started, and then stops. */
  lemma {:induction false} CountdownFromNonPositive(seconds: int, n: nat)
    requires seconds <= 0 && n >= 1
    ensures AfterTicks(seconds, n) == Countdown(seconds - 1, false)
  {
    if n > 1 {
      CountdownFromNonPositive(seconds, n - 1);
    }
  }

  /** Minutes and seconds as the timer shows them. */
  datatype MinSec = MinSec(minutes: int, seconds: int)

  /** `Math.floor(timeLeft / 60)` and `timeLeft % 60`, where the script's `%`
      keeps the sign of the dividend (unlike Dafny's, which is never negative). */
  function TimerDisplay(timeLeft: int): (r: MinSec)
    ensures timeLeft >= 0 ==> r.minutes >= 0 && 0 <= r.seconds < 60 && r.minutes * 60 + r.seconds == timeLeft
    ensures timeLeft < 0 ==> r.minutes < 0 && r.minutes * 60 <= timeLeft < r.minutes * 60 + 60
    ensures timeLeft < 0 ==> -60 < r.seconds <= 0 && (timeLeft - r.seconds) % 60 == 0
  {
    var rem := if timeLeft >= 0 then timeLeft % 60 else -((-timeLeft) % 60);
    MinSec(timeLeft / 60, rem)
  }
}
