/**
 * The round clock of components/Timer.tsx. Every client derives the same round
 * boundary from wall-clock time alone: the next multiple of the round duration.
 * `now` is the millisecond timestamp the browser's clock would give.
 */
module Timer {
  import opened Constants
  import opened JsText

  const DurationMs: int := RoundDurationMinutes * 60 * 1000
  const TotalSeconds: int := RoundDurationMinutes * 60

  /** A round boundary: an instant that is a whole number of rounds. */
  predicate IsBoundary(t: int)
  {
    t % DurationMs == 0
  }

  /** No boundary at or after `now` lies before `now` rounded up to a boundary. */
  lemma NoEarlierBoundary(now: int, m: int)
    requires IsBoundary(m) && now <= m
    ensures now % DurationMs == 0 || now - now % DurationMs + DurationMs <= m
  {
    var k, q := m / DurationMs, now / DurationMs;
    assert m == k * DurationMs;
    assert now == q * DurationMs + now % DurationMs;
    if k <= q {
      assert k * DurationMs <= q * DurationMs;
    } else {
      assert (q + 1) * DurationMs <= k * DurationMs;
    }
  }

  /** `Math.ceil(now / durationMs) * durationMs`: the first boundary at or after `now`,
      that is `now` rounded down to a boundary, plus one round unless `now` is one. */
  function NextRoundTime(now: int): (b: int)
    ensures IsBoundary(b) && now <= b < now + DurationMs
    ensures b == now <==> IsBoundary(now)
    ensures forall m :: IsBoundary(m) && now <= m ==> b <= m
  {
    var rem := now % DurationMs;
    var b := if rem == 0 then now else now - rem + DurationMs;
    assert now == (now / DurationMs) * DurationMs + rem;
    assert b == (now / DurationMs + (if rem == 0 then 0 else 1)) * DurationMs;
    forall m | IsBoundary(m) && now <= m ensures b <= m {
      NoEarlierBoundary(now, m);
    }
    b
  }

  /** The milliseconds left in the round at instant `now`. */
  function Diff(now: int): (d: int)
    ensures 0 <= d < DurationMs
    ensures d == 0 <==> IsBoundary(now)
    ensures d == NextRoundTime(now) - now
  {
    NextRoundTime(now) - now
  }

  /** `Math.floor((diff % (1000 * 60 * 60)) / (1000 * 60))`; `%` on a non-negative diff
      agrees between JavaScript and Dafny. */
  function Minutes(diff: nat): (m: int)
    ensures 0 <= m < 60
  {
    (diff % (1000 * 60 * 60)) / (1000 * 60)
  }

  /** `Math.floor((diff % (1000 * 60)) / 1000)`. */
  function Seconds(diff: nat): (s: int)
    ensures 0 <= s < 60
  {
    (diff % (1000 * 60)) / 1000
  }

  /** Below one round, minutes and seconds split the whole seconds left. */
  lemma MinutesSeconds(diff: nat)
    requires diff < DurationMs
    ensures 0 <= Minutes(diff) < RoundDurationMinutes && 0 <= Seconds(diff) < 60
    ensures Minutes(diff) * 60 + Seconds(diff) == diff / 1000
  {
    var q, r := diff / 60000, diff % 60000;
    assert diff == q * 60000 + r;
    assert diff % 3600000 == diff;
    assert Minutes(diff) == q;
    var s := r / 1000;
    assert r == s * 1000 + r % 1000;
    assert diff == (q * 60 + s) * 1000 + r % 1000;
  }

  /** The text `MM:SS` the timer shows: two zero-padded digits each side of a colon,
      reading back as the minutes and the seconds. */
  function Formatted(minutes: nat, seconds: nat): (f: string)
    requires minutes < 100 && seconds < 100
    ensures |f| == 5 && f[2] == ':'
    ensures IsDigit(f[0]) && IsDigit(f[1]) && IsDigit(f[3]) && IsDigit(f[4])
    ensures DigitValue(f[0]) * 10 + DigitValue(f[1]) == minutes
    ensures DigitValue(f[3]) * 10 + DigitValue(f[4]) == seconds
  {
    var mm, ss := TwoDigits(minutes), TwoDigits(seconds);
    var f := mm + ":" + ss;
    assert f[0] == mm[0] && f[1] == mm[1] && f[3] == ss[0] && f[4] == ss[1];
    f
  }

  /** The text is the template of the source,
      `${minutes.toString().padStart(2, '0')}:${seconds.toString().padStart(2, '0')}`. */
  lemma FormattedIsTemplate(minutes: nat, seconds: nat)
    requires minutes < 100 && seconds < 100
    ensures Formatted(minutes, seconds)
         == PadStart(DecimalString(minutes), 2, '0') + ":" + PadStart(DecimalString(seconds), 2, '0')
  {
    TwoDigitsIsPadStart(minutes);
    TwoDigitsIsPadStart(seconds);
  }

  /** `(remainingSeconds / totalSeconds) * 100`, exactly. */
  function Progress(remainingSeconds: int): (p: real)
    ensures 0 <= remainingSeconds < TotalSeconds ==> 0.0 <= p < 100.0
    ensures p * 1800.0 == remainingSeconds as real * 100.0
  {
    (remainingSeconds as real / TotalSeconds as real) * 100.0
  }

  /** One evaluation of calculateTimeRemaining. */
  datatype Reading = Reading(
    nextRoundTime: int,
    diff: int,
    minutes: int,
    seconds: int,
    formatted: string,
    progress: real,
    roundEnd: bool)

  /** The reading for a round ending at `nextRoundTime` with `diff` milliseconds left. */
  function ReadingFrom(nextRoundTime: int, diff: int): (r: Reading)
    requires 0 <= diff < DurationMs
  {
    var minutes := Minutes(diff);
    var seconds := Seconds(diff);
    MinutesSeconds(diff);
    Reading(nextRoundTime, diff, minutes, seconds, Formatted(minutes, seconds),
            Progress(minutes * 60 + seconds), diff <= 1000)
  }

  /** calculateTimeRemaining at instant `now`: boundary, remainder, display text,
      progress percentage and whether onRoundEnd fires. */
  function CalculateTimeRemaining(now: int): (r: Reading)
    ensures r.nextRoundTime == NextRoundTime(now) && r.diff == Diff(now)
    ensures r.roundEnd <==> Diff(now) <= 1000
  {
    ReadingFrom(NextRoundTime(now), NextRoundTime(now) - now)
  }

  /** A reading for `diff` milliseconds left splits them into minutes and seconds,
      shows them as `MM:SS`, and gives the percentage of the round still left. */
  lemma ReadingFromFacts(nextRoundTime: int, diff: int)
    requires 0 <= diff < DurationMs
    ensures var r := ReadingFrom(nextRoundTime, diff);
      && r.nextRoundTime == nextRoundTime && r.diff == diff && (r.roundEnd <==> diff <= 1000)
      && 0 <= r.minutes < RoundDurationMinutes && 0 <= r.seconds < 60
      && r.minutes * 60 + r.seconds == diff / 1000
      && r.formatted == Formatted(r.minutes, r.seconds)
      && 0.0 <= r.progress < 100.0 && r.progress == Progress(diff / 1000)
  {
    MinutesSeconds(diff);
  }

  /** calculateTimeRemaining is the reading for the next boundary and its remainder. */
  lemma ReadingAt(now: int)
    ensures CalculateTimeRemaining(now) == ReadingFrom(NextRoundTime(now), Diff(now))
  {
  }

  /** The boundary of a reading is the first one at or after `now`, less than one round
      is left, and onRoundEnd fires exactly in the last second of the round. */
  lemma ReadingBoundary(now: int)
    ensures var r := CalculateTimeRemaining(now);
      && r.nextRoundTime == NextRoundTime(now) && r.diff == Diff(now)
      && 0 <= r.diff < DurationMs && (r.diff == 0 <==> IsBoundary(now))
      && (r.roundEnd <==> r.diff <= 1000)
  {
    ReadingAt(now);
    ReadingFromFacts(NextRoundTime(now), Diff(now));
  }

  /** Minutes and seconds split the whole seconds left, within a 30-minute round, and the
      text shows them as `MM:SS`. */
  lemma ReadingClock(now: int)
    ensures var r := CalculateTimeRemaining(now);
      && 0 <= r.minutes < RoundDurationMinutes && 0 <= r.seconds < 60
      && r.minutes * 60 + r.seconds == r.diff / 1000
      && r.formatted == Formatted(r.minutes, r.seconds)
  {
    ReadingAt(now);
    ReadingFromFacts(NextRoundTime(now), Diff(now));
  }

  /** The progress is the percentage of a full round's seconds still left, below 100. */
  lemma ReadingProgress(now: int)
    ensures var r := CalculateTimeRemaining(now);
      && 0.0 <= r.progress < 100.0
      && r.progress == Progress(r.diff / 1000)
  {
    ReadingAt(now);
    ReadingFromFacts(NextRoundTime(now), Diff(now));
  }

  /** A boundary in the round starting at `now` is the next boundary. */
  lemma BoundaryUnique(now: int, b: int)
    requires IsBoundary(b) && now <= b < now + DurationMs
    ensures NextRoundTime(now) == b
  {
  }

  /** Shifting a boundary by whole rounds gives a boundary. */
  lemma BoundaryShift(b: int, shift: int)
    requires IsBoundary(b) && IsBoundary(shift)
    ensures IsBoundary(b + shift)
  {
    var i, j := b / DurationMs, shift / DurationMs;
    assert b == i * DurationMs && shift == j * DurationMs;
    assert b + shift == (i + j) * DurationMs;
  }

  /** Moving the clock by whole rounds moves the boundary by as much and keeps the
      remainder. */
  lemma DiffEveryRound(now: int, later: int)
    requires IsBoundary(later - now)
    ensures NextRoundTime(later) == NextRoundTime(now) + (later - now)
    ensures Diff(later) == Diff(now)
  {
    BoundaryShift(NextRoundTime(now), later - now);
    BoundaryUnique(later, NextRoundTime(now) + (later - now));
  }

  /** Only the boundary of a reading depends on the boundary it is given. */
  lemma ReadingFromRetarget(n1: int, n2: int, diff: int)
    requires 0 <= diff < DurationMs
    ensures ReadingFrom(n2, diff) == ReadingFrom(n1, diff).(nextRoundTime := n2)
  {
  }

  /** Two clocks with the same remainder get the same reading but for its boundary. */
  lemma SameDiffSameReading(now: int, later: int)
    requires Diff(later) == Diff(now)
    ensures CalculateTimeRemaining(later)
         == CalculateTimeRemaining(now).(nextRoundTime := NextRoundTime(later))
  {
    ReadingAt(later);
    ReadingAt(now);
    ReadingFromRetarget(NextRoundTime(now), NextRoundTime(later), Diff(now));
  }

  /** Clients whose clocks differ by whole rounds see the same remainder, text and
      progress: the reading depends on `now` only through its place in the round. */
  lemma SameReadingEveryRound(now: int, later: int)
    requires IsBoundary(later - now)
    ensures CalculateTimeRemaining(later)
         == CalculateTimeRemaining(now).(nextRoundTime := NextRoundTime(now) + (later - now))
  {
    DiffEveryRound(now, later);
    SameDiffSameReading(now, later);
  }

  /** The instant of the i-th sample of a clock polled every 1000 ms from t0. */
  function Sample(t0: int, i: nat): (t: int)
  {
    t0 + 1000 * i
  }

  /** An evaluation at instant t fires onRoundEnd for the boundary b. */
  predicate AnnouncesAt(t: int, b: int)
  {
    var r := CalculateTimeRemaining(t);
    r.roundEnd && r.nextRoundTime == b
  }

  /** Sample i fires onRoundEnd for the boundary b. */
  predicate Announces(t0: int, i: nat, b: int)
  {
    AnnouncesAt(Sample(t0, i), b)
  }

  /** An evaluation in the last second before a boundary, or on it, fires for it. */
  lemma LastSecondAnnounces(t: int, b: int)
    requires IsBoundary(b) && b - 1000 <= t <= b
    ensures AnnouncesAt(t, b)
  {
    BoundaryUnique(t, b);
  }

  /** Evaluations at the instants `ts`, never more than 1000 ms apart, from one at or
      before the boundary b to one at or after it, fire onRoundEnd for b at least once.
      This holds however the evaluations are spaced, including the extra ones a
      restarted interval makes. */
  lemma {:induction false} BoundaryAnnouncedWithinGaps(ts: seq<int>, b: int)
    requires IsBoundary(b) && |ts| > 0 && ts[0] <= b <= ts[|ts| - 1]
    requires forall i :: 0 <= i < |ts| - 1 ==> ts[i + 1] - ts[i] <= 1000
    ensures exists i :: 0 <= i < |ts| && AnnouncesAt(ts[i], b)
    decreases |ts|
  {
    if |ts| == 1 || b < ts[1] {
      LastSecondAnnounces(ts[0], b);
    } else {
      var rest := ts[1..];
      assert forall i :: 0 <= i < |rest| - 1 ==> rest[i + 1] - rest[i] <= 1000 by {
        forall i | 0 <= i < |rest| - 1 ensures rest[i + 1] - rest[i] <= 1000 {
          assert rest[i + 1] == ts[i + 2] && rest[i] == ts[i + 1];
        }
      }
      BoundaryAnnouncedWithinGaps(rest, b);
      var j :| 0 <= j < |rest| && AnnouncesAt(rest[j], b);
      assert AnnouncesAt(ts[j + 1], b);
    }
  }

  /** Every boundary at or after the first sample fires onRoundEnd on some sample. */
  lemma {:induction false} BoundaryAnnounced(t0: int, b: int)
    requires IsBoundary(b) && t0 <= b
    ensures exists i: nat :: Announces(t0, i, b)
  {
    var i: nat := (b - t0) / 1000;
    var t := Sample(t0, i);
    assert b - 1000 < t <= b;
    BoundaryUnique(t, b);
    assert Announces(t0, i, b);
  }

  /** Two samples firing for the same boundary are consecutive and the later one lands
      exactly on the boundary: a boundary fires once, or twice only then. */
  lemma {:induction false} AnnouncedAtMostTwice(t0: int, i: nat, j: nat, b: int)
    requires i < j && Announces(t0, i, b) && Announces(t0, j, b)
    ensures j == i + 1 && Sample(t0, j) == b && Sample(t0, i) == b - 1000
  {
    assert b - 1000 <= Sample(t0, i) < Sample(t0, j) <= b;
    assert 1000 * (j - i) <= 1000;
  }

  /** The Timer component: its two state cells. */
  class Timer {
    var timeLeft: string
    var progress: real

    /** Before the first evaluation the timer shows a full round. */
    constructor ()
      ensures timeLeft == "30:00" && progress == 100.0
    {
      timeLeft := "30:00";
      progress := 100.0;
    }

    /** One evaluation of calculateTimeRemaining (the mount call or an interval tick):
        writes both cells and reports whether onRoundEnd is invoked. */
    method Tick(now: int) returns (roundEnd: bool)
      modifies this
      ensures timeLeft == CalculateTimeRemaining(now).formatted
      ensures progress == CalculateTimeRemaining(now).progress
      ensures roundEnd == CalculateTimeRemaining(now).roundEnd
      ensures roundEnd <==> Diff(now) <= 1000
    {
      var r := CalculateTimeRemaining(now);
      ReadingBoundary(now);
      timeLeft := r.formatted;
      progress := r.progress;
      roundEnd := r.roundEnd;
    }
  }
}
