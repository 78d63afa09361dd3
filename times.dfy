/** Minutes past midnight of an `"HH:MM"` session time, as both the by-date
    programme builder and the session selector compute them. */
module Times {
  import opened Wrappers
  import opened Strings
  import opened Json

  /** `toMinutes(time)` on a string: "" is 0; otherwise the text before the
      first ':' and the text after it are read with `Number`, and a missing
      or non-numeric part makes the whole result 0. */
  function ToMinutes(time: string): int
  {
    if time == "" then 0
    else
      var parts := Split(time, ':');
      var hours := NumberOfString(parts[0]);
      var minutes := if |parts| >= 2 then NumberOfString(parts[1]) else None;
      if hours.None? || minutes.None? then 0
      else 60 * hours.value + minutes.value
  }

  /** A time written as `HH:MM`, zero-padded. */
  function FormatClock(minutes: nat): string
  {
    PadTwo(minutes / 60) + ":" + PadTwo(minutes % 60)
  }

  /** Digits on both sides of one ':' read as hours and minutes. */
  lemma ToMinutesDigits(hs: string, ms: string)
    requires AllDigits(hs) && AllDigits(ms)
    ensures ToMinutes(hs + ":" + ms) == 60 * DigitsValue(hs) + DigitsValue(ms)
  {
    DigitsExclude(hs, ':');
    DigitsExclude(ms, ':');
    var time := hs + ":" + ms;
    assert time != "" by { assert time[|hs|] == ':'; }
    SplitTwo(hs, ms, ':');
    var parts := Split(time, ':');
    assert parts[0] == hs && parts[1] == ms;
    NumberOfDigits(hs);
    NumberOfDigits(ms);
  }

  /** Reading a formatted clock time gives back the minutes. */
  lemma ToMinutesFormatClock(minutes: nat)
    ensures ToMinutes(FormatClock(minutes)) == minutes
  {
    PadTwoValue(minutes / 60);
    PadTwoValue(minutes % 60);
    ToMinutesDigits(PadTwo(minutes / 60), PadTwo(minutes % 60));
  }

  /** Without ':' there are no minutes, so the result is 0. */
  lemma ToMinutesNoColon(time: string)
    requires ':' !in time
    ensures ToMinutes(time) == 0
  {
    SplitNone(time, ':');
  }

  /** An hour part holding a character that is neither a digit, a sign nor
      white space reads as NaN, which makes the result 0 whatever follows. */
  lemma ToMinutesBadHours(hs: string, rest: string, k: nat)
    requires ':' !in hs && k < |hs|
    requires !IsDigit(hs[k]) && hs[k] != '-' && hs[k] != '+' && !IsJsSpace(hs[k])
    ensures ToMinutes(hs + ":" + rest) == 0
  {
    var time := hs + ":" + rest;
    assert time[|hs|] == ':';
    assert time == hs + [':'] + rest;
    SplitFront(hs, rest, ':');
    assert Split(time, ':')[0] == hs;
    TrimKeeps(hs, k);
    var t := Trim(hs);
    var j :| 0 <= j < |t| && t[j] == hs[k];
    assert !AllDigits(t);
    assert j >= 1 ==> !AllDigits(t[1..]) by {
      if j >= 1 { assert t[1..][j - 1] == t[j]; }
    }
  }
}
