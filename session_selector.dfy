/** The session picker of an event page: sessions are grouped by day (past
    and unreadable ones dropped), one day is active, and one session of that
    day is selected, either the one the visitor clicked or a fallback.

    Instants are milliseconds counted from local midnight of 0001-01-01; the
    current instant and today's key are parameters. */
module SessionSelector {
  import opened Wrappers
  import opened Strings
  import opened Json
  import opened Sequences
  import opened Calendar
  import opened Times

  const MS_PER_MINUTE: int := 60000
  const MS_PER_DAY: int := 86400000

  /** `parseLocalDate(dateKey)`: the three "-"-separated parts read with
      `Number`; a missing, non-numeric or zero part gives nothing, and the
      numbers go to `new Date` unchecked, so an overflowing day rolls over. */
  function ParseLocalDate(dateKey: string): (r: Option<Date>)
    ensures dateKey == "" ==> r.None?
  {
    if dateKey == "" then None else ParseParts(Split(dateKey, '-'))
  }

  /** `[year, month, day] = parts.map(Number)`. */
  function ParseParts(parts: seq<string>): (r: Option<Date>)
    requires |parts| >= 1
    ensures |parts| < 3 ==> r.None?
  {
    ParseNumbers(
      NumberOfString(parts[0]),
      if |parts| >= 2 then NumberOfString(parts[1]) else None,
      if |parts| >= 3 then NumberOfString(parts[2]) else None)
  }

  /** `if (!year || !month || !day) return null` (NaN is `None`), then
      `new Date(year, month - 1, day)`. */
  function ParseNumbers(year: Option<int>, month: Option<int>, day: Option<int>): (r: Option<Date>)
    ensures r.Some? <==>
      (year.Some? && month.Some? && day.Some? && year.value != 0 && month.value != 0 && day.value != 0)
    ensures r.Some? ==> r.value == NewDate(year.value, month.value - 1, day.value)
  {
    if year.None? || month.None? || day.None? then None
    else if year.value == 0 || month.value == 0 || day.value == 0 then None
    else Some(NewDate(year.value, month.value - 1, day.value))
  }

  /** Three digit strings around two dashes are read as their three numbers. */
  lemma ParseLocalDateDigits(y: string, m: string, d: string)
    requires AllDigits(y) && AllDigits(m) && AllDigits(d)
    ensures ParseLocalDate(y + "-" + m + "-" + d)
         == ParseNumbers(Some(DigitsValue(y)), Some(DigitsValue(m)), Some(DigitsValue(d)))
  {
    var key := y + "-" + m + "-" + d;
    assert key == y + ['-'] + m + ['-'] + d;
    assert key != "" by { assert key[|y|] == '-'; }
    DigitsExclude(y, '-');
    DigitsExclude(m, '-');
    DigitsExclude(d, '-');
    SplitThree(y, m, d, '-');
    assert ParseLocalDate(key) == ParseParts([y, m, d]);
    var parts := [y, m, d];
    assert parts[0] == y && parts[1] == m && parts[2] == d;
    NumberOfDigits(y);
    NumberOfDigits(m);
    NumberOfDigits(d);
  }

  /** A date key of a four-digit year reads back as its date. */
  lemma ParseLocalDateKey(date: Date)
    requires Valid(date) && 1000 <= date.year <= 9999
    ensures ParseLocalDate(FormatDateKey(date)) == Some(date)
  {
    var y, m, d := NatToString(date.year), PadTwo(date.month), PadTwo(date.day);
    assert FormatDateKey(date) == y + "-" + m + "-" + d;
    ParseLocalDateParts(date, y, m, d);
  }

  lemma ParseLocalDateParts(date: Date, y: string, m: string, d: string)
    requires Valid(date) && 1000 <= date.year <= 9999
    requires y == NatToString(date.year) && m == PadTwo(date.month) && d == PadTwo(date.day)
    ensures ParseLocalDate(y + "-" + m + "-" + d) == Some(date)
  {
    NatToStringValue(date.year);
    PadTwoValue(date.month);
    PadTwoValue(date.day);
    ParseLocalDateDigits(y, m, d);
    ParseNumbersOfDate(date);
  }

  lemma ParseNumbersOfDate(date: Date)
    requires Valid(date) && 1000 <= date.year
    ensures ParseNumbers(Some(date.year), Some(date.month), Some(date.day)) == Some(date)
  {
    NewDateInRange(date);
  }

  /** No range check: the 30th of February 2024 is the 1st of March. */
  lemma ParseLocalDateOverflow()
    ensures ParseLocalDate("2024-02-30") == Some(Date(2024, 3, 1))
  {
    assert DigitsValue("2024") == 2024 by {
      assert "2024"[..3] == "202" && "202"[..2] == "20" && "20"[..1] == "2";
    }
    assert DigitsValue("02") == 2 by { assert "02"[..1] == "0"; }
    assert DigitsValue("30") == 30 by { assert "30"[..1] == "3"; }
    assert "2024-02-30" == "2024" + "-" + "02" + "-" + "30";
    ParseLocalDateDigits("2024", "02", "30");
    assert ParseLocalDate("2024-02-30") == Some(NewDate(2024, 1, 30));
    FebruaryOverflow();
  }

  lemma FebruaryOverflow()
    ensures NewDate(2024, 1, 30) == Date(2024, 3, 1)
  {
    assert NewDate(2024, 1, 30) == AddDays(Date(2024, 2, 1), 29);
    AddDaysWithinMonth(2024, 2, 28);
    AddDaysAdditive(Date(2024, 2, 1), 28, 1);
    assert AddDays(Date(2024, 2, 29), 1) == NextDay(Date(2024, 2, 29));
  }

  /** The hours and minutes of a "HH:MM" label, as `getSessionDateTime`
      reads them: both parts must be numbers. */
  function ClockMinutes(time: string): (r: Option<int>)
    ensures r.Some? ==> time != ""
  {
    var parts := Split(time, ':');
    var hours := NumberOfString(parts[0]);
    var minutes := if |parts| >= 2 then NumberOfString(parts[1]) else None;
    if hours.None? || minutes.None? then None
    else Some(60 * hours.value + minutes.value)
  }

  /** The sorting key `toMinutes` agrees with the clock reading, and is 0
      where the clock reading fails. */
  lemma ToMinutesClock(time: string)
    ensures ToMinutes(time) == ClockMinutes(time).GetOr(0)
  {
  }

  /** `getSessionDateTime(dateKey, time)`: local midnight of the parsed day
      plus the clock time, or nothing. */
  function SessionDateTime(dateKey: string, time: string): (r: Option<int>)
    ensures r.Some? <==> ParseLocalDate(dateKey).Some? && ClockMinutes(time).Some?
    ensures r.Some? ==> r.value == DayNumber(ParseLocalDate(dateKey).value) * MS_PER_DAY + ToMinutes(time) * MS_PER_MINUTE
  {
    match ParseLocalDate(dateKey)
    case None => None
    case Some(date) =>
      match ClockMinutes(time)
      case None => None
      case Some(m) => Some(DayNumber(date) * MS_PER_DAY + m * MS_PER_MINUTE)
  }

  /** On one day a later clock time is a later instant. */
  lemma SessionDateTimeMonotone(dateKey: string, a: string, b: string)
    requires SessionDateTime(dateKey, a).Some? && SessionDateTime(dateKey, b).Some?
    ensures SessionDateTime(dateKey, a).value <= SessionDateTime(dateKey, b).value <==> ToMinutes(a) <= ToMinutes(b)
  {
  }

  /** A later day is a later instant whatever the clock times within a day. */
  lemma SessionDateTimeDays(ka: string, kb: string, a: string, b: string)
    requires SessionDateTime(ka, a).Some? && SessionDateTime(kb, b).Some?
    requires 0 <= ToMinutes(a) < 1440 && 0 <= ToMinutes(b) < 1440
    requires Before(ParseLocalDate(ka).value, ParseLocalDate(kb).value)
    ensures SessionDateTime(ka, a).value < SessionDateTime(kb, b).value
  {
    DayNumberOrder(ParseLocalDate(ka).value, ParseLocalDate(kb).value);
  }

  // ---------------------------------------------------------------------------
  // Grouping by day

  /** `session.date.split("T")[0]`. */
  function DateKeyOf(session: Value): string
    requires Get(session, "date").Str?
  {
    Split(Get(session, "date").s, 'T')[0]
  }

  /** What grouping needs of a session in order not to throw: a truthy date
      is a string, and a session whose day parses has a string time. */
  predicate Groupable(session: Value)
  {
    var date := Get(session, "date");
    Truthy(date) ==> date.Str? && (ParseLocalDate(DateKeyOf(session)).Some? ==> Get(session, "sessionTime").Str?)
  }

  /** The day a session is filed under, if it is kept: it has a date, the
      part before "T" is not empty, date and time parse, and the instant is
      not before `now` (a session starting exactly now is kept). */
  function KeptKey(session: Value, now: int): (r: Option<string>)
    ensures r.Some? ==> Get(session, "date").Str? && r.value == DateKeyOf(session)
  {
    var date := Get(session, "date");
    if !Groupable(session) || !Truthy(date) then None
    else
      var key := DateKeyOf(session);
      if key == "" || ParseLocalDate(key).None? then None
      else
        match SessionDateTime(key, Get(session, "sessionTime").s)
        case None => None
        case Some(instant) => if instant < now then None else Some(key)
  }

  /** The keep rule, in full. */
  lemma KeptKeySpec(session: Value, now: int)
    requires Groupable(session)
    ensures KeptKey(session, now).Some? <==>
      Truthy(Get(session, "date")) && DateKeyOf(session) != ""
      && ParseLocalDate(DateKeyOf(session)).Some?
      && SessionDateTime(DateKeyOf(session), Get(session, "sessionTime").s).Some?
      && SessionDateTime(DateKeyOf(session), Get(session, "sessionTime").s).value >= now
  {
  }

  /** The keep rule as a key function for grouping. */
  function KeepDay(now: int): Value -> Option<string>
  {
    session => KeptKey(session, now)
  }

  /** `sessionsByDate`: each day that kept a session, with its kept sessions
      in input order. */
  function Buckets(sessions: seq<Value>, now: int): map<string, seq<Value>>
  {
    GroupBy(sessions, KeepDay(now))
  }

  /** The default order of `Array.prototype.sort` on strings. */
  predicate StrLe(a: string, b: string)
  {
    !LexLess(b, a)
  }

  lemma StrLePreorder()
    ensures TotalPreorder(StrLe)
  {
    forall a, b
      ensures StrLe(a, b) || StrLe(b, a)
    {
      LexLessTrichotomy(a, b);
    }
    forall a, b, c | StrLe(a, b) && StrLe(b, c)
      ensures StrLe(a, c)
    {
      LexLessTrichotomy(a, b);
      LexLessTrichotomy(b, c);
      if LexLess(c, a) && a != b {
        LexLessTransitive(c, a, b);
      }
    }
  }

  /** `dateKeys`: the buckets' days sorted. */
  function DateKeys(sessions: seq<Value>, now: int): seq<string>
  {
    SortBy(KeysInOrder(sessions, KeepDay(now)), StrLe)
  }

  predicate StrictlySorted(keys: seq<string>)
  {
    forall i, j :: 0 <= i < j < |keys| ==> LexLess(keys[i], keys[j])
  }

  /** The days are strictly increasing and are exactly the buckets' days. */
  lemma DateKeysSpec(sessions: seq<Value>, now: int)
    ensures StrictlySorted(DateKeys(sessions, now))
    ensures NoDuplicates(DateKeys(sessions, now))
    ensures forall k :: k in DateKeys(sessions, now) <==> k in Buckets(sessions, now)
  {
    var order := KeysInOrder(sessions, KeepDay(now));
    var keys := DateKeys(sessions, now);
    KeysInOrderSpec(sessions, KeepDay(now));
    StrLePreorder();
    SortBySorted(order, StrLe);
    NoDuplicatesPermutation(order, keys);
    forall i, j | 0 <= i < j < |keys|
      ensures LexLess(keys[i], keys[j])
    {
      assert StrLe(keys[i], keys[j]);
      LexLessTrichotomy(keys[i], keys[j]);
    }
    forall k
      ensures k in keys <==> k in Buckets(sessions, now)
    {
      calc {
        k in keys;
        k in multiset(keys);
        k in multiset(order);
        k in order;
      }
    }
  }

  /** Each kept session sits in its own day's bucket and in no other; a day
      has a bucket exactly when some session was kept for it. */
  lemma BucketPlacement(sessions: seq<Value>, now: int)
    ensures forall s :: s in sessions && KeptKey(s, now).Some? ==>
      KeptKey(s, now).value in Buckets(sessions, now) && s in Buckets(sessions, now)[KeptKey(s, now).value]
    ensures forall k, s :: k in Buckets(sessions, now) && s in Buckets(sessions, now)[k] ==>
      s in sessions && KeptKey(s, now) == Some(k)
    ensures forall k :: k in Buckets(sessions, now) <==> exists s :: s in sessions && KeptKey(s, now) == Some(k)
  {
    KeysInOrderSpec(sessions, KeepDay(now));
  }

  /** `groupSessionsByDate(sessions, now)`: one pass filling the buckets,
      then the days sorted. */
  method GroupSessionsByDate(sessions: seq<Value>, now: int)
    returns (sessionsByDate: map<string, seq<Value>>, dateKeys: seq<string>)
    requires forall s :: s in sessions ==> Groupable(s)
    ensures sessionsByDate == Buckets(sessions, now)
    ensures dateKeys == DateKeys(sessions, now)
  {
    sessionsByDate := map[];
    var order: seq<string> := [];
    var i := 0;
    while i < |sessions|
      invariant 0 <= i <= |sessions|
      invariant order == KeysInOrder(sessions[..i], KeepDay(now))
      invariant sessionsByDate == Buckets(sessions[..i], now)
    {
      KeysInOrderStep(sessions, i, KeepDay(now));
      var kept := KeptKey(sessions[i], now);
      if kept.None? {
        GroupSkip(sessions, i, KeepDay(now));
      } else {
        var key := kept.value;
        GroupKeep(sessions, i, KeepDay(now), key);
        if key !in sessionsByDate {
          order := order + [key];
        }
        var list := if key in sessionsByDate then sessionsByDate[key] else [];
        sessionsByDate := sessionsByDate[key := list + [sessions[i]]];
      }
      i := i + 1;
    }
    assert sessions[..i] == sessions;
    dateKeys := SortBy(order, StrLe);
  }

  // ---------------------------------------------------------------------------
  // The active day and the selected session

  /** `dateKeys.find((k) => k === todayKey) ?? dateKeys[0] ?? ""`. */
  function DefaultDateKey(dateKeys: seq<string>, todayKey: string): (r: string)
    ensures todayKey in dateKeys ==> r == todayKey
    ensures |dateKeys| > 0 ==> r in dateKeys
    ensures |dateKeys| == 0 ==> r == ""
  {
    if todayKey in dateKeys then todayKey
    else if |dateKeys| > 0 then dateKeys[0]
    else ""
  }

  /** Without today among the days, the default is the earliest day. */
  lemma DefaultIsEarliest(dateKeys: seq<string>, todayKey: string)
    requires StrictlySorted(dateKeys) && todayKey !in dateKeys && |dateKeys| > 0
    ensures forall k :: k in dateKeys && k != DefaultDateKey(dateKeys, todayKey) ==> LexLess(DefaultDateKey(dateKeys, todayKey), k)
  {
  }

  /** `safeActiveDateKey`: the stored day if it is a day with sessions, else the default. */
  function SafeActiveDateKey(dateKeys: seq<string>, activeDateKey: string, todayKey: string): (r: string)
    ensures |dateKeys| > 0 ==> r in dateKeys
    ensures activeDateKey in dateKeys ==> r == activeDateKey
    ensures activeDateKey !in dateKeys ==> r == DefaultDateKey(dateKeys, todayKey)
  {
    if activeDateKey in dateKeys then activeDateKey else DefaultDateKey(dateKeys, todayKey)
  }

  /** The session time as the sort reads it; kept sessions always have a
      string time. */
  function TimeText(session: Value): string
  {
    if Get(session, "sessionTime").Str? then Get(session, "sessionTime").s else ""
  }

  predicate SessionLe(a: Value, b: Value)
  {
    ToMinutes(TimeText(a)) <= ToMinutes(TimeText(b))
  }

  lemma SessionLePreorder()
    ensures TotalPreorder(SessionLe)
  {
  }

  /** `sessionsForDate`: the active day's bucket (or nothing) in time
      order; a stable sort, so sessions at the same minute keep their order. */
  function SessionsForDate(sessionsByDate: map<string, seq<Value>>, key: string): (r: seq<Value>)
    ensures key in sessionsByDate ==> multiset(r) == multiset(sessionsByDate[key])
    ensures key !in sessionsByDate ==> r == []
    ensures SortedBy(r, SessionLe)
    ensures key in sessionsByDate ==> forall s :: Class(r, s, SessionLe) == Class(sessionsByDate[key], s, SessionLe)
  {
    var list := if key in sessionsByDate then sessionsByDate[key] else [];
    SessionLePreorder();
    SortBySorted(list, SessionLe);
    forall s ensures Class(SortBy(list, SessionLe), s, SessionLe) == Class(list, s, SessionLe) {
      SortByStable(list, s, SessionLe);
    }
    SortBy(list, SessionLe)
  }

  function IdOf(session: Value): Value
  {
    Get(session, "id")
  }

  /** `session.availableSeats > 0`. */
  predicate HasSeats(session: Value)
  {
    match ToNumber(Get(session, "availableSeats"))
    case None => false
    case Some(n) => n > 0
  }

  /** `session.availableSeats <= 0`: a missing count is not sold out, `null` is. */
  predicate SoldOut(session: Value)
  {
    match ToNumber(Get(session, "availableSeats"))
    case None => false
    case Some(n) => n <= 0
  }

  predicate IdsDefined(list: seq<Value>)
  {
    forall s :: s in list ==> !Nullish(IdOf(s))
  }

  /** `find(availableSeats > 0)?.id ?? list[0]?.id ?? null`. */
  function FallbackSessionId(list: seq<Value>): (r: Value)
    ensures |list| == 0 ==> r == Null
    ensures IdsDefined(list) && |list| > 0 ==> exists s :: s in list && r == IdOf(s)
    ensures IdsDefined(list) && (exists s :: s in list && HasSeats(s)) ==>
      r == IdOf(Find(list, HasSeats).value)
    ensures IdsDefined(list) && |list| > 0 && (forall s :: s in list ==> !HasSeats(s)) ==> r == IdOf(list[0])
  {
    var withSeats := match Find(list, HasSeats) case None => Undefined case Some(s) => IdOf(s);
    var first := if |list| > 0 then IdOf(list[0]) else Undefined;
    Coalesce(Coalesce(withSeats, first), Null)
  }

  /** `resolvedSessionId`: the stored id while it names a session of the
      list, else the fallback. */
  function ResolvedSessionId(list: seq<Value>, stored: Value): (r: Value)
    ensures (exists s :: s in list && IdOf(s) == stored) ==> r == stored
    ensures (forall s :: s in list ==> IdOf(s) != stored) ==> r == FallbackSessionId(list)
  {
    if exists s :: s in list && IdOf(s) == stored then stored else FallbackSessionId(list)
  }

  /** `sessionsForDate.find((s) => s.id === id) ?? null`. */
  function SelectedSession(list: seq<Value>, id: Value): (r: Option<Value>)
    ensures r.Some? ==> r.value in list && IdOf(r.value) == id
    ensures r.None? ==> forall s :: s in list ==> IdOf(s) != id
  {
    Find(list, s => IdOf(s) == id)
  }

  /** The selected session is none or one of the day's sessions; with ids
      present it is some session whenever the day has one, so the confirm
      button is enabled; a stored id that matches is kept. */
  lemma SelectionInList(list: seq<Value>, stored: Value)
    ensures var sel := SelectedSession(list, ResolvedSessionId(list, stored));
      sel.None? || sel.value in list
    ensures IdsDefined(list) && |list| > 0 ==> SelectedSession(list, ResolvedSessionId(list, stored)).Some?
    ensures (exists s :: s in list && IdOf(s) == stored) ==>
      IdOf(SelectedSession(list, ResolvedSessionId(list, stored)).value) == stored
  {
  }

  /** Without a matching stored id, the first session with seats is
      selected, else the first session. */
  lemma SelectionFallback(list: seq<Value>, stored: Value)
    requires IdsDefined(list) && |list| > 0
    requires forall s :: s in list ==> IdOf(s) != stored
    ensures var sel := SelectedSession(list, ResolvedSessionId(list, stored)).value;
      (exists s :: s in list && HasSeats(s)) ==> IdOf(sel) == IdOf(Find(list, HasSeats).value)
    ensures var sel := SelectedSession(list, ResolvedSessionId(list, stored)).value;
      (forall s :: s in list ==> !HasSeats(s)) ==> IdOf(sel) == IdOf(list[0])
  {
  }

  /** One button of the day strip; `isToday` is the "Auj." label. */
  datatype ScheduleDay = ScheduleDay(key: string, isToday: bool, active: bool)

  function ScheduleDays(dateKeys: seq<string>, safeKey: string, todayKey: string): (r: seq<ScheduleDay>)
    ensures |r| == |dateKeys|
    ensures forall i :: 0 <= i < |r| ==> r[i].key == dateKeys[i]
    ensures forall i :: 0 <= i < |r| ==> (r[i].active <==> dateKeys[i] == safeKey)
    ensures forall i :: 0 <= i < |r| ==> (r[i].isToday <==> dateKeys[i] == todayKey)
  {
    seq(|dateKeys|, i requires 0 <= i < |dateKeys| =>
      ScheduleDay(dateKeys[i], dateKeys[i] == todayKey, dateKeys[i] == safeKey))
  }

  /** With at least one day, exactly one day button is active. */
  lemma ExactlyOneActive(dateKeys: seq<string>, activeDateKey: string, todayKey: string)
    requires NoDuplicates(dateKeys) && |dateKeys| > 0
    ensures var days := ScheduleDays(dateKeys, SafeActiveDateKey(dateKeys, activeDateKey, todayKey), todayKey);
      exists i :: 0 <= i < |days| && days[i].active && forall j :: 0 <= j < |days| && days[j].active ==> j == i
  {
    var safe := SafeActiveDateKey(dateKeys, activeDateKey, todayKey);
    var i :| 0 <= i < |dateKeys| && dateKeys[i] == safe;
    var days := ScheduleDays(dateKeys, safe, todayKey);
    assert days[i].active;
  }

  // ---------------------------------------------------------------------------
  // The component's two state cells

  class Selector {
    const sessionsByDate: map<string, seq<Value>>
    const dateKeys: seq<string>
    const todayKey: string
    var activeDateKey: string
    var selectedSessionId: Value

    /** The sessions shown for the active day. */
    function Shown(): seq<Value>
      reads this
    {
      SessionsForDate(sessionsByDate, SafeActiveDateKey(dateKeys, activeDateKey, todayKey))
    }

    /** The session the confirm button would book; the button is disabled
        when there is none. */
    function Selection(): Option<Value>
      reads this
    {
      SelectedSession(Shown(), ResolvedSessionId(Shown(), selectedSessionId))
    }

    /** Mounting: sessions grouped, the default day active, nothing stored. */
    constructor (sessions: seq<Value>, now: int, todayKey: string)
      requires forall s :: s in sessions ==> Groupable(s)
      ensures sessionsByDate == Buckets(sessions, now) && dateKeys == DateKeys(sessions, now)
      ensures this.todayKey == todayKey
      ensures activeDateKey == DefaultDateKey(dateKeys, todayKey) && selectedSessionId == Null
    {
      var buckets, keys := GroupSessionsByDate(sessions, now);
      sessionsByDate := buckets;
      dateKeys := keys;
      this.todayKey := todayKey;
      activeDateKey := DefaultDateKey(keys, todayKey);
      selectedSessionId := Null;
    }

    /** `handleDateChange(dateKey)`: the day changes and the stored session is cleared. */
    method ChangeDate(dateKey: string)
      modifies this
      ensures activeDateKey == dateKey && selectedSessionId == Null
    {
      activeDateKey := dateKey;
      selectedSessionId := Null;
    }

    /** A click on the i-th session button; a sold-out button is disabled. */
    method ClickSession(i: nat)
      requires i < |Shown()|
      modifies this
      ensures activeDateKey == old(activeDateKey)
      ensures SoldOut(old(Shown())[i]) ==> selectedSessionId == old(selectedSessionId)
      ensures !SoldOut(old(Shown())[i]) ==> selectedSessionId == IdOf(old(Shown())[i])
      ensures !SoldOut(old(Shown())[i]) ==> Selection().Some? && IdOf(Selection().value) == IdOf(Shown()[i])
    {
      var session := Shown()[i];
      if !SoldOut(session) {
        selectedSessionId := IdOf(session);
        assert session in Shown();
      }
    }
  }
}
