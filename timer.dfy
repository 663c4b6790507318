/** The per-card countdown and the M:SS rendering of a number of seconds. */
module Timer {

  import opened Options
  import opened Text

  /** `f"{secs:02d}"`: the decimal digits padded with zeros to width two. */
  function TwoDigits(n: nat): (r: string)
    ensures |r| >= 2 && forall i :: 0 <= i < |r| ==> IsDigit(r[i])
  {
    var digits := ShowNat(n);
    if |digits| < 2 then "0" + digits else digits
  }

  /** `format_time`: minutes, a colon, then the seconds past the minute on two
      digits. Python's `//` and `%` round toward minus infinity; for the divisor
      60 they agree with Dafny's `/` and `%` on every integer. */
  function FormatTime(seconds: int): (r: string)
    ensures |r| >= 4
  {
    ShowInt(seconds / 60) + ":" + TwoDigits(seconds % 60)
  }

  /** Reads an M:SS text back into seconds: an integer, a colon, two digits. */
  function ParseClock(t: string): (r: Option<int>)
  {
    if |t| < 4 || t[|t| - 3] != ':' || !IsDigit(t[|t| - 2]) || !IsDigit(t[|t| - 1]) then None
    else ClockValue(ParseInt(t[..|t| - 3]), 10 * DigitValue(t[|t| - 2]) + DigitValue(t[|t| - 1]))
  }

  function ClockValue(mins: Option<int>, secs: nat): Option<int> {
    if mins.Some? && secs < 60 then Some(mins.value * 60 + secs) else None
  }

  lemma ParseClockParts(m: string, a: char, b: char)
    requires |m| > 0 && IsDigit(a) && IsDigit(b)
    ensures ParseClock(m + [':', a, b]) == ClockValue(ParseInt(m), 10 * DigitValue(a) + DigitValue(b))
  {
    var t := m + [':', a, b];
    assert t[..|t| - 3] == m;
  }

  lemma TwoDigitsValue(n: nat)
    requires n < 60
    ensures TwoDigits(n) == [DigitChar(n / 10), DigitChar(n % 10)]
  {
    if n >= 10 {
      assert ShowNat(n / 10) == [DigitChar(n / 10)];
    }
  }

  /** The rendering loses nothing: the minutes and the two-digit seconds read back
      give the number of seconds, and the seconds part is below 60. Stated for
      every number of minutes Python prints (at most `MaxStrDigits` digits). */
  lemma FormatTimeRoundTrip(seconds: int)
    requires |ShowNat(Magnitude(seconds / 60))| <= MaxStrDigits
    ensures ParseClock(FormatTime(seconds)) == Some(seconds)
  {
    var mins, secs := seconds / 60, seconds % 60;
    var m := ShowInt(mins);
    TwoDigitsValue(secs);
    assert FormatTime(seconds) == m + [':', DigitChar(secs / 10), DigitChar(secs % 10)];
    ParseClockParts(m, DigitChar(secs / 10), DigitChar(secs % 10));
    ParseShowInt(mins);
  }

  /** `timer_countdown(seconds)` run to its end without interleaving. The flag
      `timer_running` is set, then tested before every tick; `cancelAfter` is the
      number of ticks after which the studying side has cleared it (None: never).
      Returns the final `timer_running`, the final `time_remaining` and the
      number of one-second ticks taken. */
  method Countdown(seconds: int, cancelAfter: Option<nat>) returns (running: bool, remaining: int, ticks: nat)
    ensures !running
    ensures remaining == seconds - ticks
    ensures seconds <= 0 ==> ticks == 0
    ensures seconds >= 0 ==> remaining >= 0
    ensures cancelAfter.None? ==> ticks == (if seconds > 0 then seconds else 0)
    ensures cancelAfter.Some? && seconds > 0 ==>
      ticks == if cancelAfter.value < seconds then cancelAfter.value else seconds
  {
    running := true;
    remaining := seconds;
    ticks := 0;
    running := !Cleared(cancelAfter, ticks);
    while remaining > 0 && running
      invariant remaining == seconds - ticks
      invariant seconds > 0 ==> ticks <= seconds
      invariant seconds <= 0 ==> ticks == 0
      invariant cancelAfter.Some? ==> ticks <= cancelAfter.value
      invariant running <==> !Cleared(cancelAfter, ticks)
    {
      // one tick: a second passes
      remaining := remaining - 1;
      ticks := ticks + 1;
      running := !Cleared(cancelAfter, ticks);
    }
    running := false;
  }

  /** The studying side has cleared `timer_running` once `ticks` ticks have passed. */
  predicate Cleared(cancelAfter: Option<nat>, ticks: nat) {
    cancelAfter.Some? && cancelAfter.value <= ticks
  }
}
