/** Local calendar dates as the site's JavaScript `Date` objects hold them:
    `new Date(year, monthIndex, day)` with its overflow rules, `setDate`,
    `getDay`, the `YYYY-MM-DD` keys the pages exchange, and their strict
    parser. Dates follow the proleptic Gregorian calendar. */
module Calendar {
  import opened Wrappers
  import opened Strings
  import Json

  /** `month` is 1..12, that is JavaScript's `getMonth() + 1`. */
  datatype Date = Date(year: int, month: int, day: int)

  predicate IsLeapYear(y: int)
  {
    y % 4 == 0 && (y % 100 != 0 || y % 400 == 0)
  }

  function DaysInMonth(y: int, m: int): (r: int)
    requires 1 <= m <= 12
    ensures 28 <= r <= 31
    ensures m == 2 ==> (r == 29 <==> IsLeapYear(y))
  {
    if m == 2 then (if IsLeapYear(y) then 29 else 28)
    else if m == 4 || m == 6 || m == 9 || m == 11 then 30
    else 31
  }

  predicate Valid(d: Date)
  {
    1 <= d.month <= 12 && 1 <= d.day <= DaysInMonth(d.year, d.month)
  }

  function NextDay(d: Date): (r: Date)
    requires Valid(d)
    ensures Valid(r)
  {
    if d.day < DaysInMonth(d.year, d.month) then Date(d.year, d.month, d.day + 1)
    else if d.month < 12 then Date(d.year, d.month + 1, 1)
    else Date(d.year + 1, 1, 1)
  }

  function PrevDay(d: Date): (r: Date)
    requires Valid(d)
    ensures Valid(r)
  {
    if d.day > 1 then Date(d.year, d.month, d.day - 1)
    else if d.month > 1 then Date(d.year, d.month - 1, DaysInMonth(d.year, d.month - 1))
    else Date(d.year - 1, 12, 31)
  }

  /** The date `n` days after `d` (before it when `n` is negative). */
  function AddDays(d: Date, n: int): (r: Date)
    requires Valid(d)
    ensures Valid(r)
    decreases if n < 0 then -n else n
  {
    if n == 0 then d
    else if n > 0 then AddDays(NextDay(d), n - 1)
    else AddDays(PrevDay(d), n + 1)
  }

  // ---------------------------------------------------------------------------
  // Day numbers: days elapsed since 0001-01-01

  function DaysBeforeYear(y: int): int
  {
    var p := y - 1;
    365 * p + p / 4 - p / 100 + p / 400
  }

  function DaysBeforeMonth(y: int, m: int): (r: int)
    requires 1 <= m <= 12
    ensures 0 <= r <= 335
  {
    var leap := if IsLeapYear(y) then 1 else 0;
    if m == 1 then 0
    else if m == 2 then 31
    else if m == 3 then 59 + leap
    else if m == 4 then 90 + leap
    else if m == 5 then 120 + leap
    else if m == 6 then 151 + leap
    else if m == 7 then 181 + leap
    else if m == 8 then 212 + leap
    else if m == 9 then 243 + leap
    else if m == 10 then 273 + leap
    else if m == 11 then 304 + leap
    else 334 + leap
  }

  function DayNumber(d: Date): int
    requires Valid(d)
  {
    DaysBeforeYear(d.year) + DaysBeforeMonth(d.year, d.month) + d.day - 1
  }

  /** `getDay()`: 0 is Sunday. 0001-01-01 was a Monday. */
  function DayOfWeek(d: Date): (r: int)
    requires Valid(d)
    ensures 0 <= r < 7
  {
    (DayNumber(d) + 1) % 7
  }

  /** Dates in calendar order. */
  predicate Before(a: Date, b: Date)
  {
    a.year < b.year
    || (a.year == b.year && a.month < b.month)
    || (a.year == b.year && a.month == b.month && a.day < b.day)
  }

  lemma DaysInYear(y: int)
    ensures DaysBeforeYear(y + 1) == DaysBeforeYear(y) + (if IsLeapYear(y) then 366 else 365)
    ensures DaysBeforeYear(y + 1) == DaysBeforeYear(y) + DaysBeforeMonth(y, 12) + 31
  {
    var p := y - 1;
    DivSteps(p);
    assert y % 4 == (p + 1) % 4;
  }

  /** How the century-rule quotients grow from one year to the next. */
  lemma DivSteps(p: int)
    ensures (p + 1) / 4 == p / 4 + (if (p + 1) % 4 == 0 then 1 else 0)
    ensures (p + 1) / 100 == p / 100 + (if (p + 1) % 100 == 0 then 1 else 0)
    ensures (p + 1) / 400 == p / 400 + (if (p + 1) % 400 == 0 then 1 else 0)
  {
  }

  lemma MonthStep(y: int, m: int)
    requires 1 <= m < 12
    ensures DaysBeforeMonth(y, m + 1) == DaysBeforeMonth(y, m) + DaysInMonth(y, m)
  {
  }

  /** The next day is one day number later. */
  lemma DayNumberNext(d: Date)
    requires Valid(d)
    ensures DayNumber(NextDay(d)) == DayNumber(d) + 1
  {
    if d.day == DaysInMonth(d.year, d.month) {
      if d.month < 12 {
        MonthStep(d.year, d.month);
      } else {
        DaysInYear(d.year);
      }
    }
  }

  lemma NextPrev(d: Date)
    requires Valid(d)
    ensures NextDay(PrevDay(d)) == d
  {
  }

  lemma DayNumberPrev(d: Date)
    requires Valid(d)
    ensures DayNumber(PrevDay(d)) == DayNumber(d) - 1
  {
    NextPrev(d);
    DayNumberNext(PrevDay(d));
  }

  /** `AddDays` moves the day number by exactly `n`. */
  lemma {:induction false} AddDaysDayNumber(d: Date, n: int)
    requires Valid(d)
    ensures DayNumber(AddDays(d, n)) == DayNumber(d) + n
    decreases if n < 0 then -n else n
  {
    if n > 0 {
      DayNumberNext(d);
      AddDaysDayNumber(NextDay(d), n - 1);
    } else if n < 0 {
      DayNumberPrev(d);
      AddDaysDayNumber(PrevDay(d), n + 1);
    }
  }

  lemma {:induction false} DaysBeforeYearMonotone(a: int, b: int)
    requires a <= b
    ensures DaysBeforeYear(a) + 365 * (b - a) <= DaysBeforeYear(b)
    decreases b - a
  {
    if a < b {
      DaysInYear(a);
      DaysBeforeYearMonotone(a + 1, b);
    }
  }

  /** A date's day number lies inside its month, and its month inside its year. */
  lemma DayNumberBounds(d: Date)
    requires Valid(d)
    ensures DaysBeforeYear(d.year) + DaysBeforeMonth(d.year, d.month) <= DayNumber(d)
    ensures DayNumber(d) < DaysBeforeYear(d.year) + DaysBeforeMonth(d.year, d.month) + DaysInMonth(d.year, d.month)
    ensures DayNumber(d) < DaysBeforeYear(d.year + 1)
  {
    DaysInYear(d.year);
    if d.month < 12 {
      MonthsBefore(d.year, d.month + 1, 12);
      MonthStep(d.year, d.month);
    }
  }

  lemma MonthsBefore(y: int, a: int, b: int)
    requires 1 <= a <= b <= 12
    ensures DaysBeforeMonth(y, a) <= DaysBeforeMonth(y, b)
    ensures a < b ==> DaysBeforeMonth(y, a) + DaysInMonth(y, a) <= DaysBeforeMonth(y, b)
  {
  }

  /** Day numbers order dates as the calendar does. */
  lemma DayNumberOrder(a: Date, b: Date)
    requires Valid(a) && Valid(b)
    ensures Before(a, b) <==> DayNumber(a) < DayNumber(b)
  {
    if Before(a, b) {
      DayNumberBeforeLess(a, b);
    } else if Before(b, a) {
      DayNumberBeforeLess(b, a);
    } else {
      assert a == b;
    }
  }

  lemma DayNumberBeforeLess(a: Date, b: Date)
    requires Valid(a) && Valid(b) && Before(a, b)
    ensures DayNumber(a) < DayNumber(b)
  {
    DayNumberBounds(a);
    DayNumberBounds(b);
    if a.year < b.year {
      DaysBeforeYearMonotone(a.year + 1, b.year);
    } else if a.month < b.month {
      MonthsBefore(a.year, a.month, b.month);
    }
  }

  /** Distinct valid dates have distinct day numbers. */
  lemma DayNumberInjective(a: Date, b: Date)
    requires Valid(a) && Valid(b)
    requires DayNumber(a) == DayNumber(b)
    ensures a == b
  {
    DayNumberOrder(a, b);
    DayNumberOrder(b, a);
  }

  /** Adding days twice adds their sum. */
  lemma AddDaysAdditive(d: Date, m: int, n: int)
    requires Valid(d)
    ensures AddDays(AddDays(d, m), n) == AddDays(d, m + n)
  {
    AddDaysDayNumber(d, m);
    AddDaysDayNumber(AddDays(d, m), n);
    AddDaysDayNumber(d, m + n);
    DayNumberInjective(AddDays(AddDays(d, m), n), AddDays(d, m + n));
  }

  /** Stepping forward never goes back a year, and one step back costs at most one. */
  lemma {:induction false} AddDaysYearBound(d: Date, n: int)
    requires Valid(d) && n >= -1
    ensures AddDays(d, n).year >= d.year - 1
    ensures n >= 0 ==> AddDays(d, n).year >= d.year
    decreases n + 1
  {
    if n > 0 {
      AddDaysYearBound(NextDay(d), n - 1);
    }
  }

  /** Moving inside one month only changes the day. */
  lemma AddDaysWithinMonth(y: int, m: int, k: int)
    requires 1 <= m <= 12 && 0 <= k < DaysInMonth(y, m)
    ensures AddDays(Date(y, m, 1), k) == Date(y, m, k + 1)
  {
    AddDaysDayNumber(Date(y, m, 1), k);
    DayNumberInjective(AddDays(Date(y, m, 1), k), Date(y, m, k + 1));
  }

  // ---------------------------------------------------------------------------
  // Constructing dates

  /** `new Date(year, monthIndex, day)`: a year from 0 to 99 means 19xx,
      the month index rolls over into years, and the day into months. */
  function NewDate(year: int, monthIndex: int, day: int): (r: Date)
    ensures Valid(r)
  {
    var y := if 0 <= year <= 99 then 1900 + year else year;
    AddDays(Date(y + monthIndex / 12, monthIndex % 12 + 1, 1), day - 1)
  }

  /** An in-range date is built as given, outside years 0 to 99. */
  lemma NewDateInRange(d: Date)
    requires Valid(d) && !(0 <= d.year <= 99)
    ensures NewDate(d.year, d.month - 1, d.day) == d
  {
    AddDaysWithinMonth(d.year, d.month, d.day - 1);
  }

  /** `new Date(y, monthIndex + 1, 0).getDate()` is the length of month `monthIndex`. */
  lemma LastDayOfMonth(y: int, m: int)
    requires 1 <= m <= 12 && !(0 <= y <= 99)
    ensures NewDate(y, m, 0) == Date(y, m, DaysInMonth(y, m))
  {
    var first := Date(y + m / 12, m % 12 + 1, 1);
    assert NewDate(y, m, 0) == AddDays(first, -1);
    DayBeforeFirst(y, m, first);
  }

  lemma DayBeforeFirst(y: int, m: int, first: Date)
    requires 1 <= m <= 12
    requires first == Date(y + m / 12, m % 12 + 1, 1)
    ensures AddDays(first, -1) == Date(y, m, DaysInMonth(y, m))
  {
    var last := Date(y, m, DaysInMonth(y, m));
    AddDaysDayNumber(first, -1);
    DayNumberOfFirst(y, m, first);
    DayNumberInjective(AddDays(first, -1), last);
  }

  /** The first of the next month is one day after the last of this one. */
  lemma DayNumberOfFirst(y: int, m: int, first: Date)
    requires 1 <= m <= 12
    requires first == Date(y + m / 12, m % 12 + 1, 1)
    ensures Valid(first) && DayNumber(first) == DayNumber(Date(y, m, DaysInMonth(y, m))) + 1
  {
    if m < 12 {
      assert first == Date(y, m + 1, 1);
      MonthStep(y, m);
    } else {
      assert first == Date(y + 1, 1, 1);
      DaysInYear(y);
    }
  }

  /** `date.setDate(day)`: same year and month, day rolled over (no 19xx rule). */
  function SetDate(d: Date, day: int): (r: Date)
    requires Valid(d)
    ensures Valid(r)
  {
    AddDays(Date(d.year, d.month, 1), day - 1)
  }

  /** `copy.setDate(d.getDate() + k)` is the date `k` days after `d`. */
  lemma SetDateOffset(d: Date, k: int)
    requires Valid(d)
    ensures SetDate(d, d.day + k) == AddDays(d, k)
  {
    AddDaysWithinMonth(d.year, d.month, d.day - 1);
    AddDaysAdditive(Date(d.year, d.month, 1), d.day - 1, k);
  }

  // ---------------------------------------------------------------------------
  // Date keys

  /** `${getFullYear()}-${pad(getMonth() + 1)}-${pad(getDate())}`. */
  function FormatDateKey(d: Date): string
    requires Valid(d)
  {
    IntToString(d.year) + "-" + PadTwo(d.month) + "-" + PadTwo(d.day)
  }

  /** The text matches `^(\d{4})-(\d{2})-(\d{2})$`. */
  predicate KeyShape(s: string)
  {
    |s| == 10 && s[4] == '-' && s[7] == '-'
    && AllDigits(s[..4]) && AllDigits(s[5..7]) && AllDigits(s[8..])
  }

  function KeyYear(s: string): nat requires KeyShape(s) { DigitsValue(s[..4]) }
  function KeyMonth(s: string): nat requires KeyShape(s) { DigitsValue(s[5..7]) }
  function KeyDay(s: string): nat requires KeyShape(s) { DigitsValue(s[8..]) }

  /** `parseDateParam` / `parseDateKey`: a string of the key shape whose
      numbers survive the trip through `new Date` unchanged. */
  function ParseDateKey(v: Json.Value): Option<Date>
  {
    if !v.Str? || !KeyShape(v.s) then None
    else
      var year := KeyYear(v.s);
      var month := KeyMonth(v.s) - 1;
      var day := KeyDay(v.s);
      var date := NewDate(year, month, day);
      if date.year != year || date.month - 1 != month || date.day != day then None
      else Some(date)
  }

  /** A key parses exactly when it has the shape, names an existing day, and
      its year is at least 100 (years 0 to 99 turn into 19xx and fail the check). */
  lemma ParseDateKeySpec(s: string)
    ensures ParseDateKey(Json.Str(s)).Some? <==>
      KeyShape(s) && KeyYear(s) >= 100 && Valid(Date(KeyYear(s), KeyMonth(s), KeyDay(s)))
    ensures ParseDateKey(Json.Str(s)).Some? ==>
      ParseDateKey(Json.Str(s)).value == Date(KeyYear(s), KeyMonth(s), KeyDay(s))
  {
    if KeyShape(s) {
      DigitsBound(s[5..7]);
      DigitsBound(s[8..]);
      NewDateExact(KeyYear(s), KeyMonth(s), KeyDay(s));
    }
  }

  /** `new Date` keeps a year, month and day of two digits each exactly
      when they name an existing day of a year from 100 on. */
  lemma NewDateExact(year: nat, month: nat, day: nat)
    requires month <= 99 && day <= 99
    ensures NewDate(year, month - 1, day) == Date(year, month, day)
      <==> year >= 100 && Valid(Date(year, month, day))
  {
    var y := if 0 <= year <= 99 then 1900 + year else year;
    var m0: int := month as int - 1;
    var base := Date(y + m0 / 12, m0 % 12 + 1, 1);
    AddDaysYearBound(base, day as int - 1);
    if year >= 100 && Valid(Date(year, month, day)) {
      NewDateInRange(Date(year, month, day));
    }
  }

  lemma DigitsBound(t: string)
    requires |t| == 2 && AllDigits(t)
    ensures DigitsValue(t) <= 99
  {
    TwoDigits(t);
  }

  /** A formatted four-digit-year date parses back to itself. */
  lemma ParseFormatDateKey(d: Date)
    requires Valid(d) && 1000 <= d.year <= 9999
    ensures KeyShape(FormatDateKey(d))
    ensures ParseDateKey(Json.Str(FormatDateKey(d))) == Some(d)
  {
    var s := FormatDateKey(d);
    var ys, ms, ds := IntToString(d.year), PadTwo(d.month), PadTwo(d.day);
    NatToStringLength(d.year);
    NatToStringValue(d.year);
    PadTwoValue(d.month);
    PadTwoValue(d.day);
    assert s == ys + "-" + ms + "-" + ds;
    assert s[..4] == ys;
    assert s[5..7] == ms;
    assert s[8..] == ds;
    ParseDateKeySpec(s);
  }

  /** Whatever parses with a four-digit year formats back to the same text. */
  lemma FormatParseDateKey(s: string)
    requires ParseDateKey(Json.Str(s)).Some?
    requires ParseDateKey(Json.Str(s)).value.year >= 1000
    ensures FormatDateKey(ParseDateKey(Json.Str(s)).value) == s
  {
    ParseDateKeySpec(s);
    var d := ParseDateKey(Json.Str(s)).value;
    FourDigits(s[..4]);
    CanonicalNumeral(s[..4]);
    PadTwoOfDigits(s[5..7]);
    PadTwoOfDigits(s[8..]);
    assert s == s[..4] + "-" + s[5..7] + "-" + s[8..];
  }

  /** Different dates never share a key. */
  lemma FormatDateKeyInjective(a: Date, b: Date)
    requires Valid(a) && Valid(b)
    requires FormatDateKey(a) == FormatDateKey(b)
    ensures a == b
  {
    // The last two dashes delimit month and day; the year is what is left.
    var ta := KeyTail(a);
    var tb := KeyTail(b);
    DashSplit(IntToString(a.year), ta);
    DashSplit(IntToString(b.year), tb);
    IntToStringInjective(a.year, b.year);
    DashSplit(PadTwo(a.month), PadTwo(a.day));
    DashSplit(PadTwo(b.month), PadTwo(b.day));
  }

  /** The month and the day of a key, five characters. */
  function KeyTail(d: Date): (r: string)
    requires Valid(d)
    ensures |r| == 5 && FormatDateKey(d) == IntToString(d.year) + "-" + r
    ensures |PadTwo(d.month)| == 2 && |PadTwo(d.day)| == 2
    ensures DigitsValue(PadTwo(d.month)) == d.month && DigitsValue(PadTwo(d.day)) == d.day
  {
    PadTwoValue(d.month);
    PadTwoValue(d.day);
    PadTwo(d.month) + "-" + PadTwo(d.day)
  }

  /** Both sides of a dash are read back by position. */
  lemma DashSplit(x: string, y: string)
    ensures var k := x + "-" + y; k[..|x|] == x && k[|x| + 1..] == y && k[|k| - |y|..] == y && |k| == |x| + |y| + 1
  {
  }

  /** For four-digit years, JavaScript's `<` on keys is the calendar order. */
  lemma DateKeyOrder(a: Date, b: Date)
    requires Valid(a) && Valid(b)
    requires 1000 <= a.year <= 9999 && 1000 <= b.year <= 9999
    ensures LexLess(FormatDateKey(a), FormatDateKey(b)) <==> Before(a, b)
  {
    var ya, yb := IntToString(a.year), IntToString(b.year);
    var ra, rb := MonthDayText(a), MonthDayText(b);
    NatToStringLength(a.year); NatToStringLength(b.year);
    NatToStringValue(a.year); NatToStringValue(b.year);
    assert FormatDateKey(a) == ya + ("-" + ra);
    assert FormatDateKey(b) == yb + ("-" + rb);
    LexLessAppend(ya, "-" + ra, yb, "-" + rb);
    LexLessDigits(ya, yb);
    LexLessAppend("-", ra, "-", rb);
    LexLessIrreflexive("-");
    MonthDayOrder(a, b);
  }

  /** The "MM-DD" tail of a key. */
  function MonthDayText(d: Date): string
    requires Valid(d)
  {
    PadTwo(d.month) + ("-" + PadTwo(d.day))
  }

  lemma MonthDayOrder(a: Date, b: Date)
    requires Valid(a) && Valid(b)
    ensures LexLess(MonthDayText(a), MonthDayText(b)) <==>
      a.month < b.month || (a.month == b.month && a.day < b.day)
  {
    var ma, mb := PadTwo(a.month), PadTwo(b.month);
    var da, db := PadTwo(a.day), PadTwo(b.day);
    PadTwoValue(a.month); PadTwoValue(b.month);
    PadTwoValue(a.day); PadTwoValue(b.day);
    LexLessAppend(ma, "-" + da, mb, "-" + db);
    LexLessDigits(ma, mb);
    LexLessAppend("-", da, "-", db);
    LexLessDigits(da, db);
    LexLessIrreflexive("-");
  }

  /** Midnight of 1970-01-01, JavaScript's epoch, was a Thursday. */
  lemma EpochThursday()
    ensures DayOfWeek(Date(1970, 1, 1)) == 4
  {
  }
}
