/** The month picker of the programme page: a Monday-first grid of the
    displayed month, with the selected day marked and days before today
    disabled. The displayed month is the selected day's, else today's, else
    the current date's, which is a parameter. */
module CalendarButton {
  import opened Wrappers
  import opened Strings
  import opened Json
  import opened Sequences
  import opened Calendar

  /** One cell of the grid that holds a day. */
  datatype CalendarDay = CalendarDay(day: int, key: string, isSelected: bool, isDisabled: bool)

  /** `(new Date(year, month, 1).getDay() + 6) % 7`: the number of empty
      cells before the first, counting from Monday. */
  function MonthOffset(year: int, monthIndex: int): (r: int)
    ensures 0 <= r < 7
  {
    (DayOfWeek(NewDate(year, monthIndex, 1)) + 6) % 7
  }

  /** `new Date(year, month + 1, 0).getDate()`. */
  function MonthLength(year: int, monthIndex: int): (r: int)
    ensures 1 <= r <= 31
  {
    NewDate(year, monthIndex + 1, 0).day
  }

  /** The cell of day `day`: its key, selected when the key is the selected
      key, disabled when there is a today key and the key sorts before it. */
  function DayCell(year: int, monthIndex: int, day: int, selectedKey: Value, todayKey: string): (r: CalendarDay)
    ensures r.day == day
    ensures r.isSelected <==> selectedKey == Str(r.key)
    ensures r.isDisabled <==> todayKey != "" && LexLess(r.key, todayKey)
  {
    var key := FormatDateKey(NewDate(year, monthIndex, day));
    CalendarDay(day, key, Str(key) == selectedKey, todayKey != "" && LexLess(key, todayKey))
  }

  /** `offset` empty cells, then the cells of days 1 to `daysInMonth`. */
  function Grid(year: int, monthIndex: int, offset: nat, daysInMonth: nat, selectedKey: Value, todayKey: string): (r: seq<Option<CalendarDay>>)
    ensures |r| == offset + daysInMonth
  {
    seq(offset + daysInMonth,
      i requires 0 <= i => if i < offset then None else Some(DayCell(year, monthIndex, i - offset + 1, selectedKey, todayKey)))
  }

  /** Day `day` sits right after the `offset` empty cells. */
  lemma GridDay(year: int, monthIndex: int, offset: nat, daysInMonth: nat, selectedKey: Value, todayKey: string, day: int)
    requires 1 <= day <= daysInMonth
    ensures Grid(year, monthIndex, offset, daysInMonth, selectedKey, todayKey)[offset + day - 1]
      == Some(DayCell(year, monthIndex, day, selectedKey, todayKey))
  {
  }

  /** The grid `buildCalendarDays(baseDate, selectedKey, todayKey)` returns. */
  function CalendarDays(baseDate: Date, selectedKey: Value, todayKey: string): (r: seq<Option<CalendarDay>>)
    requires Valid(baseDate)
    ensures |r| == MonthOffset(baseDate.year, baseDate.month - 1) + MonthLength(baseDate.year, baseDate.month - 1)
  {
    var year, monthIndex := baseDate.year, baseDate.month - 1;
    Grid(year, monthIndex, MonthOffset(year, monthIndex), MonthLength(year, monthIndex), selectedKey, todayKey)
  }

  /** Day `day` of the month sits right after the leading empty cells. */
  lemma CalendarDaysDay(baseDate: Date, selectedKey: Value, todayKey: string, day: int)
    requires Valid(baseDate) && 1 <= day <= MonthLength(baseDate.year, baseDate.month - 1)
    ensures var i := MonthOffset(baseDate.year, baseDate.month - 1) + day - 1;
      i < |CalendarDays(baseDate, selectedKey, todayKey)| &&
      CalendarDays(baseDate, selectedKey, todayKey)[i] == Some(DayCell(baseDate.year, baseDate.month - 1, day, selectedKey, todayKey))
  {
    var year, monthIndex := baseDate.year, baseDate.month - 1;
    GridDay(year, monthIndex, MonthOffset(year, monthIndex), MonthLength(year, monthIndex), selectedKey, todayKey, day);
  }

  /** `buildCalendarDays`: the first and the length of the month, then the
      cells. */
  method BuildCalendarDays(baseDate: Date, selectedKey: Value, todayKey: string)
    returns (days: seq<Option<CalendarDay>>)
    requires Valid(baseDate)
    ensures days == CalendarDays(baseDate, selectedKey, todayKey)
  {
    var year := baseDate.year;
    var month := baseDate.month - 1;
    var daysInMonth := NewDate(year, month + 1, 0).day;
    var offset := (DayOfWeek(NewDate(year, month, 1)) + 6) % 7;
    days := PushCells(year, month, offset, daysInMonth, selectedKey, todayKey);
  }

  /** The two loops of `buildCalendarDays`: one pushes the empty cells, the
      other the days of the month. */
  method PushCells(year: int, month: int, offset: nat, daysInMonth: nat, selectedKey: Value, todayKey: string)
    returns (days: seq<Option<CalendarDay>>)
    ensures days == Grid(year, month, offset, daysInMonth, selectedKey, todayKey)
  {
    ghost var grid := Grid(year, month, offset, daysInMonth, selectedKey, todayKey);
    days := [];
    var i := 0;
    while i < offset
      invariant 0 <= i <= offset
      invariant days == grid[..i]
    {
      PrefixStep(grid, i);
      days := days + [None];
      i := i + 1;
    }
    var day := 1;
    while day <= daysInMonth
      invariant 1 <= day <= daysInMonth + 1
      invariant days == grid[..offset + day - 1]
    {
      var key := FormatDateKey(NewDate(year, month, day));
      var cell := CalendarDay(day, key, Str(key) == selectedKey, todayKey != "" && LexLess(key, todayKey));
      assert cell == DayCell(year, month, day, selectedKey, todayKey);
      GridDay(year, month, offset, daysInMonth, selectedKey, todayKey, day);
      PrefixStep(grid, offset + day - 1);
      days := days + [Some(cell)];
      day := day + 1;
    }
    assert grid[..|grid|] == grid;
  }

  /** Outside years 0 to 99 the grid is the real month: as many days as the
      month has, the offset is the first's weekday counted from Monday, and
      day `d` carries the key of that very date. */
  lemma GridIsMonth(baseDate: Date, selectedKey: Value, todayKey: string)
    requires Valid(baseDate) && !(0 <= baseDate.year <= 99)
    ensures MonthLength(baseDate.year, baseDate.month - 1) == DaysInMonth(baseDate.year, baseDate.month)
    ensures MonthOffset(baseDate.year, baseDate.month - 1) == (DayOfWeek(Date(baseDate.year, baseDate.month, 1)) + 6) % 7
    ensures forall d :: 1 <= d <= DaysInMonth(baseDate.year, baseDate.month) ==>
      DayCell(baseDate.year, baseDate.month - 1, d, selectedKey, todayKey).key == FormatDateKey(Date(baseDate.year, baseDate.month, d))
  {
    var y, m := baseDate.year, baseDate.month;
    MonthLengthIsDays(y, m);
    MonthOffsetIsWeekday(y, m);
    forall d | 1 <= d <= DaysInMonth(y, m)
      ensures DayCell(y, m - 1, d, selectedKey, todayKey).key == FormatDateKey(Date(y, m, d))
    {
      NewDateInRange(Date(y, m, d));
    }
  }

  lemma MonthLengthIsDays(y: int, m: int)
    requires 1 <= m <= 12 && !(0 <= y <= 99)
    ensures MonthLength(y, m - 1) == DaysInMonth(y, m)
  {
    LastDayOfMonth(y, m);
  }

  lemma MonthOffsetIsWeekday(y: int, m: int)
    requires 1 <= m <= 12 && !(0 <= y <= 99)
    ensures MonthOffset(y, m - 1) == (DayOfWeek(Date(y, m, 1)) + 6) % 7
  {
    NewDateInRange(Date(y, m, 1));
  }

  /** Two days of one month never share a key, so at most one is selected. */
  lemma AtMostOneSelected(year: int, month: int, d1: int, d2: int, selectedKey: Value, todayKey: string)
    requires 1 <= month <= 12 && !(0 <= year <= 99)
    requires 1 <= d1 <= DaysInMonth(year, month) && 1 <= d2 <= DaysInMonth(year, month)
    requires DayCell(year, month - 1, d1, selectedKey, todayKey).isSelected
    requires DayCell(year, month - 1, d2, selectedKey, todayKey).isSelected
    ensures d1 == d2
  {
    NewDateInRange(Date(year, month, d1));
    NewDateInRange(Date(year, month, d2));
    FormatDateKeyInjective(Date(year, month, d1), Date(year, month, d2));
  }

  /** Without a today key nothing is disabled; with today's key, and
      four-digit years, exactly the days before today are. */
  lemma DisabledBeforeToday(year: int, month: int, d: int, selectedKey: Value, today: Date)
    requires 1 <= month <= 12 && 1000 <= year <= 9999 && 1 <= d <= DaysInMonth(year, month)
    requires Valid(today) && 1000 <= today.year <= 9999
    ensures !DayCell(year, month - 1, d, selectedKey, "").isDisabled
    ensures DayCell(year, month - 1, d, selectedKey, FormatDateKey(today)).isDisabled <==> Before(Date(year, month, d), today)
  {
    NewDateInRange(Date(year, month, d));
    DateKeyOrder(Date(year, month, d), today);
  }

  // ---------------------------------------------------------------------------
  // The displayed month and the selected key

  /** `parseDateKey(selectedDate) || parseDateKey(todayKey) || new Date()`. */
  function ActiveDate(selectedDate: Value, todayKey: string, now: Date): (r: Date)
    requires Valid(now)
    ensures Valid(r)
    ensures ParseDateKey(selectedDate).Some? ==> r == ParseDateKey(selectedDate).value
    ensures ParseDateKey(selectedDate).None? && ParseDateKey(Str(todayKey)).Some? ==> r == ParseDateKey(Str(todayKey)).value
    ensures ParseDateKey(selectedDate).None? && ParseDateKey(Str(todayKey)).None? ==> r == now
  {
    match ParseDateKey(selectedDate)
    case Some(date) => ParseDateKeyValid(selectedDate); date
    case None =>
      match ParseDateKey(Str(todayKey))
      case Some(date) => ParseDateKeyValid(Str(todayKey)); date
      case None => now
  }

  lemma ParseDateKeyValid(v: Value)
    requires ParseDateKey(v).Some?
    ensures Valid(ParseDateKey(v).value) && 100 <= ParseDateKey(v).value.year
  {
    ParseDateKeySpec(v.s);
  }

  /** `selectedDate || toDateKey(activeDate)`. */
  function SelectedKey(selectedDate: Value, activeDate: Date): (r: Value)
    requires Valid(activeDate)
    ensures Truthy(r)
    ensures Truthy(selectedDate) ==> r == selectedDate
    ensures !Truthy(selectedDate) ==> r == Str(FormatDateKey(activeDate))
  {
    Or(selectedDate, Str(FormatDateKey(activeDate)))
  }

  /** A valid selected day with a four-digit year is shown: the grid is its
      month, and its own cell is the selected one. */
  lemma SelectedDayShown(selectedDate: Value, date: Date, todayKey: string, now: Date)
    requires Valid(now)
    requires ParseDateKey(selectedDate) == Some(date) && date.year >= 1000
    ensures ActiveDate(selectedDate, todayKey, now) == date && Valid(date)
    ensures var grid := CalendarDays(date, SelectedKey(selectedDate, date), todayKey);
      var i := MonthOffset(date.year, date.month - 1) + date.day - 1;
      0 <= i < |grid| && grid[i].Some? && grid[i].value.isSelected
  {
    SelectedKeyIsDateKey(selectedDate);
    OwnCellSelected(date, SelectedKey(selectedDate, date), todayKey);
  }

  /** The selected text of a valid four-digit-year day is that day's key. */
  lemma SelectedKeyIsDateKey(selectedDate: Value)
    requires ParseDateKey(selectedDate).Some? && ParseDateKey(selectedDate).value.year >= 1000
    ensures Valid(ParseDateKey(selectedDate).value)
    ensures SelectedKey(selectedDate, ParseDateKey(selectedDate).value) == Str(FormatDateKey(ParseDateKey(selectedDate).value))
  {
    ParseDateKeyValid(selectedDate);
    FormatParseDateKey(selectedDate.s);
  }

  /** In the grid of a date's month, the date's own cell carries its key. */
  lemma OwnCellSelected(date: Date, selectedKey: Value, todayKey: string)
    requires Valid(date) && !(0 <= date.year <= 99) && selectedKey == Str(FormatDateKey(date))
    ensures var grid := CalendarDays(date, selectedKey, todayKey);
      var i := MonthOffset(date.year, date.month - 1) + date.day - 1;
      0 <= i < |grid| && grid[i].Some? && grid[i].value.isSelected
  {
    var offset := MonthOffset(date.year, date.month - 1);
    LastDayOfMonth(date.year, date.month);
    CalendarDaysDay(date, selectedKey, todayKey, date.day);
    NewDateInRange(date);
  }
}
