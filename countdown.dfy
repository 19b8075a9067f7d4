/**
 * src/components/Countdown.tsx: a free-running seconds counter, independent of the
 * wall clock, restarting a 30-minute count when it reaches 0.
 */
module Countdown {
  import opened JsText

  /** The initial and restart value: 30 minutes in seconds. */
  const RoundSeconds: int := 1800

  predicate InRange(t: int)
  {
    0 <= t <= RoundSeconds
  }

  /** The interval's update `t > 0 ? t - 1 : 1800`. */
  function Ticked(t: int): (r: int)
    ensures InRange(t) ==> InRange(r)
    ensures 0 < t ==> r == t - 1
    ensures t <= 0 ==> r == RoundSeconds
  {
    if t > 0 then t - 1 else RoundSeconds
  }

  /** The value after n ticks from t. */
  function After(t: int, n: nat): (r: int)
    decreases n
  {
    if n == 0 then t else After(Ticked(t), n - 1)
  }

  /** From t, the first t ticks count down one second each. */
  lemma {:induction false} CountsDown(t: int, n: nat)
    requires n <= t
    ensures After(t, n) == t - n
  {
    if n > 0 {
      CountsDown(t - 1, n - 1);
    }
  }

  /** Any number of ticks keeps the counter within [0, 1800]. */
  lemma {:induction false} AfterInRange(t: int, n: nat)
    requires InRange(t)
    ensures InRange(After(t, n))
    decreases n
  {
    if n > 0 {
      AfterInRange(Ticked(t), n - 1);
    }
  }

  /** n + m ticks are n ticks followed by m ticks. */
  lemma {:induction false} AfterAdds(t: int, n: nat, m: nat)
    ensures After(t, n + m) == After(After(t, n), m)
    decreases n
  {
    if n > 0 {
      AfterAdds(Ticked(t), n - 1, m);
    }
  }

  /** The counter is periodic: every value in range recurs after exactly 1801 ticks. */
  lemma Periodic(t: int)
    requires InRange(t)
    ensures After(t, RoundSeconds + 1) == t
  {
    CountsDown(t, t);
    AfterAdds(t, t, 1);
    AfterAdds(t, t + 1, RoundSeconds - t);
    CountsDown(RoundSeconds, RoundSeconds - t);
  }

  /** No shorter run of ticks brings the initial 1800 back. */
  lemma NoShorterPeriod(n: nat)
    requires 0 < n <= RoundSeconds
    ensures After(RoundSeconds, n) != RoundSeconds
  {
    CountsDown(RoundSeconds, n);
  }

  /** `Math.floor(timeLeft / 60)`, the same in JavaScript and Dafny for a non-negative count. */
  function Minutes(t: int): (m: int)
    requires 0 <= t
    ensures InRange(t) ==> 0 <= m <= 30 && m * 60 + Seconds(t) == t
  {
    t / 60
  }

  /** `timeLeft % 60`, the same in JavaScript and Dafny for a non-negative count. */
  function Seconds(t: int): (s: int)
    requires 0 <= t
    ensures 0 <= s < 60
  {
    t % 60
  }

  /** `{minutes}:{seconds.toString().padStart(2, "0")}`: unpadded minutes, a colon, and
      exactly two digits of seconds. */
  function Display(t: int): (d: string)
    requires InRange(t)
    ensures |d| == |DecimalString(Minutes(t))| + 3
    ensures d[..|d| - 3] == DecimalString(Minutes(t))
    ensures d[|d| - 3] == ':'
    ensures IsDigit(d[|d| - 2]) && IsDigit(d[|d| - 1])
    ensures DigitValue(d[|d| - 2]) * 10 + DigitValue(d[|d| - 1]) == Seconds(t)
    ensures Minutes(t) < 10 ==> |d| == 4
  {
    var m, sec := DecimalString(Minutes(t)), TwoDigits(Seconds(t));
    var d := m + ":" + sec;
    assert d[..|d| - 3] == m;
    assert d[|d| - 2] == sec[0] && d[|d| - 1] == sec[1];
    d
  }

  /** The text is the source's expression: `minutes`, a colon, and
      `seconds.toString().padStart(2, "0")`. */
  lemma DisplayIsTemplate(t: int)
    requires InRange(t)
    ensures Display(t) == DecimalString(Minutes(t)) + ":" + PadStart(DecimalString(Seconds(t)), 2, '0')
  {
    TwoDigitsIsPadStart(Seconds(t));
  }

  /** The component's one state cell. */
  class Countdown {
    var timeLeft: int

    ghost predicate Valid()
      reads this
    {
      InRange(timeLeft)
    }

    constructor ()
      ensures Valid() && timeLeft == RoundSeconds
    {
      timeLeft := RoundSeconds;
    }

    /** One interval callback. */
    method Tick()
      requires Valid()
      modifies this
      ensures Valid()
      ensures timeLeft == Ticked(old(timeLeft))
    {
      timeLeft := if timeLeft > 0 then timeLeft - 1 else RoundSeconds;
    }
  }
}
