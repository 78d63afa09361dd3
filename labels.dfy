/** Display labels the normalisers build from raw fields: the running-time
    label in its two variants, and the "genre • duration" meta line. */
module Labels {
  import opened Wrappers
  import opened Strings
  import opened Json

  /** `formatDuration` of the programme and catalogue normalisers: NaN gives
      "", less than an hour gives "{n}m", whole hours "{h}h", else "{h}h {mm}m". */
  function FormatDuration(minutes: Value): string
  {
    match ToNumber(minutes)
    case None => ""
    case Some(n) => DurationLabel(n)
  }

  function DurationLabel(n: int): string
  {
    var hours := n / 60;
    if hours <= 0 then IntToString(n) + "m"
    else if n % 60 == 0 then IntToString(hours) + "h"
    else IntToString(hours) + "h " + PadTwo(n % 60) + "m"
  }

  /** The home page's `formatDuration`: the minutes are always printed. */
  function FormatDurationHome(minutes: Value): string
  {
    match ToNumber(minutes)
    case None => ""
    case Some(n) => HomeDurationLabel(n)
  }

  function HomeDurationLabel(n: int): string
  {
    var hours := n / 60;
    if hours <= 0 then IntToString(n) + "m"
    else IntToString(hours) + "h " + PadTwo(n % 60) + "m"
  }

  /** Reads a duration label back: "{n}m", "{h}h" or "{h}h {mm}m". */
  function ReadDuration(s: string): Option<int>
  {
    if |s| >= 2 && s[|s| - 1] == 'm' && AllDigits(s[..|s| - 1]) then
      Some(DigitsValue(s[..|s| - 1]))
    else if |s| >= 2 && s[|s| - 1] == 'h' && AllDigits(s[..|s| - 1]) then
      Some(60 * DigitsValue(s[..|s| - 1]))
    else if |s| >= 6 && s[|s| - 1] == 'm' && s[|s| - 5..|s| - 3] == "h "
         && AllDigits(s[..|s| - 5]) && AllDigits(s[|s| - 3..|s| - 1]) then
      Some(60 * DigitsValue(s[..|s| - 5]) + DigitsValue(s[|s| - 3..|s| - 1]))
    else None
  }

  lemma ReadMinutesOnly(n: nat)
    ensures ReadDuration(NatToString(n) + "m") == Some(n)
  {
    var s := NatToString(n) + "m";
    assert s[..|s| - 1] == NatToString(n);
    NatToStringValue(n);
  }

  lemma ReadHoursAndMinutes(h: nat, r: nat)
    requires h >= 1 && r < 60
    ensures ReadDuration(NatToString(h) + "h " + PadTwo(r) + "m") == Some(60 * h + r)
  {
    var hs, rs := NatToString(h), PadTwo(r);
    var s := hs + "h " + rs + "m";
    PadTwoValue(r);
    NatToStringValue(h);
    assert |rs| == 2;
    assert s[|hs|] == 'h';
    assert !AllDigits(s[..|s| - 1]) by {
      assert s[..|s| - 1][|hs|] == 'h';
    }
    assert s[..|s| - 5] == hs;
    assert s[|s| - 5..|s| - 3] == "h ";
    assert s[|s| - 3..|s| - 1] == rs;
  }

  lemma ReadWholeHours(h: nat)
    requires h >= 1
    ensures ReadDuration(NatToString(h) + "h") == Some(60 * h)
  {
    var s := NatToString(h) + "h";
    assert s[..|s| - 1] == NatToString(h);
    NatToStringValue(h);
  }

  /** The label of a non-negative running time reads back as that time. */
  lemma ReadDurationLabel(n: nat)
    ensures ReadDuration(DurationLabel(n)) == Some(n)
  {
    var h := n / 60;
    if h <= 0 {
      assert DurationLabel(n) == NatToString(n) + "m";
      ReadMinutesOnly(n);
    } else if n % 60 == 0 {
      assert DurationLabel(n) == NatToString(h) + "h";
      ReadWholeHours(h);
    } else {
      assert DurationLabel(n) == NatToString(h) + "h " + PadTwo(n % 60) + "m";
      ReadHoursAndMinutes(h, n % 60);
    }
  }

  /** The same holds for the home page's variant. */
  lemma ReadHomeDurationLabel(n: nat)
    ensures ReadDuration(HomeDurationLabel(n)) == Some(n)
  {
    var h := n / 60;
    if h <= 0 {
      assert HomeDurationLabel(n) == NatToString(n) + "m";
      ReadMinutesOnly(n);
    } else {
      assert HomeDurationLabel(n) == NatToString(h) + "h " + PadTwo(n % 60) + "m";
      ReadHoursAndMinutes(h, n % 60);
    }
  }

  /** The two variants agree except on whole hours from one hour up. */
  lemma DurationVariants(n: int)
    ensures DurationLabel(n) == HomeDurationLabel(n) <==> n < 60 || n % 60 != 0
  {
    if n >= 60 && n % 60 == 0 {
      var a, b := DurationLabel(n), HomeDurationLabel(n);
      assert a[|a| - 1] == 'h' && b[|b| - 1] == 'm';
    }
  }

  /** Two hours: "2h" on the programme, "2h 00m" on the home page. */
  lemma TwoHours()
    ensures FormatDuration(Num(120)) == "2h"
    ensures FormatDurationHome(Num(120)) == "2h 00m"
  {
    assert NatToString(2) == "2";
    assert NatToString(0) == "0";
  }

  /** `buildMetaLine(genre, duration)`: both parts around " • " when both are
      truthy, otherwise the truthy one, otherwise "". */
  function BuildMetaLine(genre: Value, duration: Value): (r: Value)
    ensures Truthy(r) <==> Truthy(genre) || Truthy(duration)
    ensures Truthy(genre) && Truthy(duration) ==>
      r.Str? && StartsWith(r.s, ToStr(genre) + " • ") && |ToStr(duration)| <= |r.s| && r.s[|r.s| - |ToStr(duration)|..] == ToStr(duration)
    ensures !Truthy(genre) ==> r == Or(duration, Str(""))
    ensures !Truthy(duration) ==> r == Or(genre, Str(""))
  {
    if Truthy(genre) && Truthy(duration) then Str(ToStr(genre) + " • " + ToStr(duration))
    else Or(Or(genre, duration), Str(""))
  }
}
