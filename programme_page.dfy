/** The programme page: the requested day is read from the query string,
    clamped to today, and shown in a strip of ten consecutive days starting
    today. The weekday and month labels come from `Intl` and are parameters. */
module ProgrammePage {
  import opened Wrappers
  import opened Strings
  import opened Json
  import opened Sequences
  import opened Calendar

  const DAYS_TO_SHOW: nat := 10

  /** One button of the day strip. */
  datatype DateOption = DateOption(value: string, labelText: string, day: string, month: string, isActive: bool)

  /** `new Date(startDate)` then `setDate(startDate.getDate() + index)`: the
      day `index` days after the start, across month and year ends. */
  function OptionDate(start: Date, index: nat): (r: Date)
    requires Valid(start)
    ensures Valid(r) && r == AddDays(start, index)
    ensures DayNumber(r) == DayNumber(start) + index
  {
    SetDateOffset(start, index);
    AddDaysDayNumber(start, index);
    SetDate(start, start.day + index)
  }

  /** "AUJ" for today, "DEM" for tomorrow, the weekday label after that. */
  function OptionLabel(index: nat, date: Date, weekday: Date -> string): string
  {
    if index == 0 then "AUJ" else if index == 1 then "DEM" else weekday(date)
  }

  function OptionAt(start: Date, index: nat, selectedKey: string, weekday: Date -> string, monthLabel: Date -> string): (r: DateOption)
    requires Valid(start)
    ensures r.value == FormatDateKey(AddDays(start, index))
    ensures r.isActive <==> r.value == selectedKey
  {
    var date := OptionDate(start, index);
    var value := FormatDateKey(date);
    DateOption(value, OptionLabel(index, date, weekday), IntToString(date.day), monthLabel(date), value == selectedKey)
  }

  /** The strip `buildDateOptions(startDate, selectedKey)` returns. */
  function DateOptions(start: Date, selectedKey: string, weekday: Date -> string, monthLabel: Date -> string): (r: seq<DateOption>)
    requires Valid(start)
    ensures |r| == DAYS_TO_SHOW
    ensures forall i :: 0 <= i < |r| ==> r[i] == OptionAt(start, i, selectedKey, weekday, monthLabel)
  {
    seq(DAYS_TO_SHOW, i requires 0 <= i < DAYS_TO_SHOW => OptionAt(start, i, selectedKey, weekday, monthLabel))
  }

  /** `buildDateOptions`: a counted loop pushing one option per day. */
  method BuildDateOptions(start: Date, selectedKey: string, weekday: Date -> string, monthLabel: Date -> string)
    returns (options: seq<DateOption>)
    requires Valid(start)
    ensures options == DateOptions(start, selectedKey, weekday, monthLabel)
  {
    options := [];
    var index := 0;
    while index < DAYS_TO_SHOW
      invariant 0 <= index <= DAYS_TO_SHOW
      invariant options == DateOptions(start, selectedKey, weekday, monthLabel)[..index]
    {
      var date := OptionDate(start, index);
      var value := FormatDateKey(date);
      var option := DateOption(
        value,
        if index == 0 then "AUJ" else if index == 1 then "DEM" else weekday(date),
        IntToString(date.day),
        monthLabel(date),
        value == selectedKey);
      ghost var all := DateOptions(start, selectedKey, weekday, monthLabel);
      assert option == OptionAt(start, index, selectedKey, weekday, monthLabel) == all[index];
      PrefixStep(all, index);
      options := options + [option];
      index := index + 1;
    }
    assert options == DateOptions(start, selectedKey, weekday, monthLabel)[..DAYS_TO_SHOW];
  }

  /** The labels: "AUJ", "DEM", then weekdays; the day number and month
      label are those of the option's own date. */
  lemma DateOptionsLabels(start: Date, selectedKey: string, weekday: Date -> string, monthLabel: Date -> string)
    requires Valid(start)
    ensures var options := DateOptions(start, selectedKey, weekday, monthLabel);
      options[0].labelText == "AUJ" && options[1].labelText == "DEM"
      && (forall i :: 2 <= i < |options| ==> options[i].labelText == weekday(AddDays(start, i)))
      && (forall i :: 0 <= i < |options| ==> options[i].day == IntToString(AddDays(start, i).day)
                                             && options[i].month == monthLabel(AddDays(start, i)))
  {
  }

  /** The value of the `i`-th option and whether it is active. */
  lemma OptionFields(start: Date, selectedKey: string, weekday: Date -> string, monthLabel: Date -> string, i: nat)
    requires Valid(start) && i < DAYS_TO_SHOW
    ensures DateOptions(start, selectedKey, weekday, monthLabel)[i].value == FormatDateKey(AddDays(start, i))
    ensures DateOptions(start, selectedKey, weekday, monthLabel)[i].isActive <==> FormatDateKey(AddDays(start, i)) == selectedKey
  {
    assert DateOptions(start, selectedKey, weekday, monthLabel)[i] == OptionAt(start, i, selectedKey, weekday, monthLabel);
  }

  /** The first value is the start day's key. */
  lemma FirstOptionIsStart(start: Date, selectedKey: string, weekday: Date -> string, monthLabel: Date -> string)
    requires Valid(start)
    ensures DateOptions(start, selectedKey, weekday, monthLabel)[0].value == FormatDateKey(start)
  {
    OptionFields(start, selectedKey, weekday, monthLabel, 0);
  }

  /** The values are the keys of consecutive calendar days: each is the key
      of the day after the one before, across month and year ends. */
  lemma DateOptionsConsecutive(start: Date, selectedKey: string, weekday: Date -> string, monthLabel: Date -> string, i: nat)
    requires Valid(start) && i + 1 < DAYS_TO_SHOW
    ensures DateOptions(start, selectedKey, weekday, monthLabel)[i].value == FormatDateKey(AddDays(start, i))
    ensures DateOptions(start, selectedKey, weekday, monthLabel)[i + 1].value == FormatDateKey(NextDay(AddDays(start, i)))
  {
    OptionFields(start, selectedKey, weekday, monthLabel, i);
    OptionFields(start, selectedKey, weekday, monthLabel, i + 1);
    WindowNextDay(start, i);
  }

  /** With four-digit years throughout, each value reads back as its day. */
  lemma WindowKeyParses(start: Date, i: nat)
    requires Valid(start) && 1000 <= start.year && AddDays(start, DAYS_TO_SHOW).year <= 9999
    requires i <= DAYS_TO_SHOW
    ensures ParseDateKey(Str(FormatDateKey(AddDays(start, i)))) == Some(AddDays(start, i))
  {
    AddDaysYearBound(start, i);
    AddDaysAdditive(start, i, DAYS_TO_SHOW - i);
    AddDaysYearBound(AddDays(start, i), DAYS_TO_SHOW - i);
    ParseFormatDateKey(AddDays(start, i));
  }

  lemma WindowNextDay(start: Date, i: nat)
    requires Valid(start)
    ensures AddDays(start, i + 1) == NextDay(AddDays(start, i))
  {
    AddDaysAdditive(start, i, 1);
    assert AddDays(AddDays(start, i), 1) == NextDay(AddDays(start, i));
  }

  /** Two days of the window with the same key are the same day. */
  lemma WindowKeysDistinct(start: Date, i: nat, j: nat)
    requires Valid(start)
    requires FormatDateKey(AddDays(start, i)) == FormatDateKey(AddDays(start, j))
    ensures i == j
  {
    FormatDateKeyInjective(AddDays(start, i), AddDays(start, j));
    AddDaysDayNumber(start, i);
    AddDaysDayNumber(start, j);
  }

  /** Two active options are the same option. */
  lemma ActiveOptionUnique(start: Date, selectedKey: string, weekday: Date -> string, monthLabel: Date -> string, i: nat, j: nat)
    requires Valid(start) && i < DAYS_TO_SHOW && j < DAYS_TO_SHOW
    requires DateOptions(start, selectedKey, weekday, monthLabel)[i].isActive
    requires DateOptions(start, selectedKey, weekday, monthLabel)[j].isActive
    ensures i == j
  {
    OptionFields(start, selectedKey, weekday, monthLabel, i);
    OptionFields(start, selectedKey, weekday, monthLabel, j);
    WindowKeysDistinct(start, i, j);
  }

  /** At most one option of the strip is active. */
  lemma AtMostOneActive(start: Date, selectedKey: string, weekday: Date -> string, monthLabel: Date -> string)
    requires Valid(start)
    ensures var options := DateOptions(start, selectedKey, weekday, monthLabel);
      forall i, j | 0 <= i < |options| && 0 <= j < |options| && options[i].isActive && options[j].isActive :: i == j
  {
    forall i, j | 0 <= i < DAYS_TO_SHOW && 0 <= j < DAYS_TO_SHOW
      && DateOptions(start, selectedKey, weekday, monthLabel)[i].isActive
      && DateOptions(start, selectedKey, weekday, monthLabel)[j].isActive
      ensures i == j
    {
      ActiveOptionUnique(start, selectedKey, weekday, monthLabel, i, j);
    }
  }

  // ---------------------------------------------------------------------------
  // The active day

  /** `requestedDate ? formatDateKey(requestedDate) : todayKey`. */
  function SelectedDateKey(param: Value, today: Date): (r: string)
    requires Valid(today)
    ensures ParseDateKey(param).None? ==> r == FormatDateKey(today)
    ensures ParseDateKey(param).Some? ==> r == FormatDateKey(ParseDateKey(param).value)
  {
    match ParseDateKey(param)
    case None => FormatDateKey(today)
    case Some(date) => FormatDateKey(date)
  }

  /** The clamp as written: `selectedDateKey < todayKey ? todayKey : selectedDateKey`,
      a comparison of the texts. */
  function ActiveDateKeyAsWritten(param: Value, today: Date): (r: string)
    requires Valid(today)
    ensures !LexLess(r, FormatDateKey(today))
    ensures r == FormatDateKey(today) || r == SelectedDateKey(param, today)
  {
    var todayKey := FormatDateKey(today);
    var selected := SelectedDateKey(param, today);
    LexLessTrichotomy(selected, todayKey);
    LexLessIrreflexive(todayKey);
    if LexLess(selected, todayKey) then todayKey else selected
  }

  /** The clamp as intended: a requested day before today falls back to today. */
  function ActiveDateKey(param: Value, today: Date): (r: string)
    requires Valid(today)
    ensures ParseDateKey(param).None? ==> r == FormatDateKey(today)
    ensures ParseDateKey(param).Some? && Before(ParseDateKey(param).value, today) ==> r == FormatDateKey(today)
    ensures ParseDateKey(param).Some? && !Before(ParseDateKey(param).value, today) ==> r == FormatDateKey(ParseDateKey(param).value)
  {
    match ParseDateKey(param)
    case None => FormatDateKey(today)
    case Some(date) => if Before(date, today) then FormatDateKey(today) else FormatDateKey(date)
  }

  /** The active day is never a day before today: it is today, or a valid
      requested day on or after today. */
  lemma ActiveDateKeyNotPast(param: Value, today: Date)
    requires Valid(today)
    ensures ActiveDateKey(param, today) == FormatDateKey(today)
      || exists d :: ParseDateKey(param) == Some(d) && Valid(d) && !Before(d, today) && ActiveDateKey(param, today) == FormatDateKey(d)
  {
    match ParseDateKey(param)
    case None =>
    case Some(d) =>
      if !Before(d, today) {
        ParseDateKeyValid(param);
      }
  }

  lemma ParseDateKeyValid(param: Value)
    requires ParseDateKey(param).Some?
    ensures Valid(ParseDateKey(param).value) && 100 <= ParseDateKey(param).value.year <= 9999
  {
    ParseDateKeySpec(param.s);
    FourDigits(param.s[..4]);
  }

  /** With four-digit years on both sides the text comparison is the
      calendar comparison, so the clamp as written agrees with the intended
      one. */
  lemma ActiveDateKeyAgrees(param: Value, today: Date)
    requires Valid(today) && 1000 <= today.year <= 9999
    requires ParseDateKey(param).Some? ==> ParseDateKey(param).value.year >= 1000
    ensures ActiveDateKeyAsWritten(param, today) == ActiveDateKey(param, today)
  {
    match ParseDateKey(param)
    case None =>
    case Some(d) =>
      ParseDateKeyValid(param);
      DateKeyOrder(d, today);
  }

  /** "0500-01-01" is accepted (year 500, written back as "500-01-01");
      that text is not below "2026-10-15", so the clamp as written keeps a
      day fifteen centuries in the past, which the intended clamp replaces
      by today. */
  lemma ClampKeepsYear500()
    ensures ParseDateKey(Str("0500-01-01")) == Some(Date(500, 1, 1))
    ensures Before(Date(500, 1, 1), Date(2026, 10, 15))
    ensures ActiveDateKeyAsWritten(Str("0500-01-01"), Date(2026, 10, 15)) == "500-01-01"
    ensures ActiveDateKey(Str("0500-01-01"), Date(2026, 10, 15)) == FormatDateKey(Date(2026, 10, 15))
  {
    ParseYear500();
    KeysOfYear500AndToday();
  }

  lemma ParseYear500()
    ensures ParseDateKey(Str("0500-01-01")) == Some(Date(500, 1, 1))
  {
    var s := "0500-01-01";
    assert KeyShape(s);
    assert s[..4] == "0500" && s[5..7] == "01" && s[8..] == "01";
    FourDigits("0500");
    TwoDigits("01");
    ParseDateKeySpec(s);
  }

  lemma KeysOfYear500AndToday()
    ensures FormatDateKey(Date(500, 1, 1)) == "500-01-01"
    ensures !LexLess("500-01-01", FormatDateKey(Date(2026, 10, 15)))
  {
    assert NatToString(5) == "5";
    assert NatToString(50) == "50";
    assert NatToString(500) == "500";
    assert NatToString(1) == "1";
    assert PadTwo(1) == "01";
    assert NatToString(2) == "2";
    assert NatToString(20) == "20";
    assert NatToString(202) == "202";
    assert NatToString(2026) == "2026";
    assert FormatDateKey(Date(2026, 10, 15))[0] == '2';
  }
}
