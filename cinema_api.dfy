/** The by-date programme builder behind the cinema page: it reads a loosely
    typed payload of event groups, bare sessions and event references into a
    map of events keyed by id, keeps only the sessions of the requested day,
    orders each event's sessions by time of day, drops events left without
    sessions and orders the events by first session, then by title.

    A `TypeError` thrown while reading the payload (a `date` that cannot be
    sliced, a session time that cannot be split) reaches the function's
    `catch`; the model records it in a `failed` flag and the result is then
    the empty programme. */
module CinemaApi {
  import opened Wrappers
  import opened Strings
  import opened Json
  import opened Sequences
  import opened Times
  import Labels

  const FALLBACK_POSTER: string := "/images/logo.png"

  /** A normalised session. */
  datatype Showing = Showing(id: Value, time: Value, sessionLabel: Value, isPremium: bool)

  /** A normalised event with the sessions gathered for it. */
  datatype CinemaEvent = CinemaEvent(
    id: Value,
    title: Value,
    description: Value,
    poster: Value,
    trailerLink: Value,
    genres: seq<Value>,
    genresLabel: string,
    durationLabel: string,
    directedBy: Value,
    ageRestriction: string,
    badge: string,
    sessions: seq<Showing>)

  // ---------------------------------------------------------------------------
  // Normalisers

  /** `event._id || event.id`. */
  function EventId(event: Value): Value
  {
    Or(Get(event, "_id"), Get(event, "id"))
  }

  /** `normalizeEvent`: no record without a truthy event and a truthy id;
      otherwise every display field with its documented default. */
  function NormalizeEvent(event: Value): (r: Option<CinemaEvent>)
    ensures r.Some? <==> Truthy(event) && Truthy(EventId(event))
    ensures r.Some? ==> r.value.id == EventId(event) && r.value.sessions == []
    ensures r.Some? ==> (r.value.badge == "Spectacle" <==> Get(event, "type") == Str("show"))
    ensures r.Some? ==> r.value.badge in {"Spectacle", "Film"}
    ensures r.Some? ==> Truthy(r.value.title) && Truthy(r.value.poster)
  {
    if !Truthy(event) then None
    else
      var id := EventId(event);
      if !Truthy(id) then None
      else
        var genresField := Get(event, "genres");
        var genres := if genresField.Arr? then genresField.items else [];
        Some(CinemaEvent(
          id := id,
          title := Or(Or(Get(event, "name"), Get(event, "title")), Str("Événement")),
          description := Or(Get(event, "description"), Str("Découvrez cette expérience cinéma prochainement.")),
          poster := Or(Get(event, "poster"), Str(FALLBACK_POSTER)),
          trailerLink := Or(Or(Get(event, "trailerLink"), Get(event, "trailer")), Str("")),
          genres := genres,
          genresLabel := if |genres| > 0 then JoinValues(Take(genres, 2), " / ") else "Cinéma",
          durationLabel := Labels.FormatDuration(Get(event, "duration")),
          directedBy := Or(Get(event, "directedBy"), Str("")),
          ageRestriction := if Truthy(Get(event, "ageRestriction")) then ToStr(Get(event, "ageRestriction")) else "TP",
          badge := if Get(event, "type") == Str("show") then "Spectacle" else "Film",
          sessions := []))
  }

  /** The genre label is the first two genres joined by " / ", or "Cinéma". */
  lemma GenresLabel(event: Value)
    requires NormalizeEvent(event).Some?
    ensures var e := NormalizeEvent(event).value;
      (|e.genres| == 0 ==> e.genresLabel == "Cinéma")
      && (|e.genres| == 1 ==> e.genresLabel == JoinValues([e.genres[0]], " / "))
      && (|e.genres| >= 2 ==> e.genresLabel == JoinValues([e.genres[0], e.genres[1]], " / "))
  {
    var e := NormalizeEvent(event).value;
    if |e.genres| == 1 {
      assert Take(e.genres, 2) == [e.genres[0]];
    } else if |e.genres| >= 2 {
      assert Take(e.genres, 2) == [e.genres[0], e.genres[1]];
    }
  }

  /** `session.sessionTime || session.time || session.startTime || session.hour`. */
  function SessionTime(session: Value): Value
  {
    Or(Or(Or(Get(session, "sessionTime"), Get(session, "time")), Get(session, "startTime")), Get(session, "hour"))
  }

  /** `session.version || session.format || session.language || "Séance"`. */
  function SessionLabel(session: Value): Value
  {
    Or(Or(Or(Get(session, "version"), Get(session, "format")), Get(session, "language")), Str("Séance"))
  }

  /** `/imax|4dx|dolby|atmos/i.test(label)`. */
  predicate IsPremiumLabel(text: string)
  {
    ContainsIgnoreCase(text, "imax") || ContainsIgnoreCase(text, "4dx")
    || ContainsIgnoreCase(text, "dolby") || ContainsIgnoreCase(text, "atmos")
  }

  /** `normalizeSession`: nothing without a truthy session time; the id falls
      back to "{time}-{label}". */
  function NormalizeSession(session: Value): (r: Option<Showing>)
    ensures r.Some? <==> Truthy(session) && Truthy(SessionTime(session))
    ensures r.Some? ==> Truthy(r.value.time) && Truthy(r.value.sessionLabel) && Truthy(r.value.id)
    ensures r.Some? ==> (r.value.isPremium <==> IsPremiumLabel(ToStr(SessionLabel(session))))
    ensures r.Some? && !Truthy(Get(session, "_id")) && !Truthy(Get(session, "id")) ==>
      r.value.id == Str(ToStr(SessionTime(session)) + "-" + ToStr(SessionLabel(session)))
  {
    if !Truthy(session) then None
    else
      var time := SessionTime(session);
      if !Truthy(time) then None
      else
        var tag := SessionLabel(session);
        var fallback := Str(ToStr(time) + "-" + ToStr(tag));
        assert Truthy(fallback) by { assert |ToStr(time) + "-" + ToStr(tag)| > 0; }
        Some(Showing(
          id := Or(Or(Get(session, "_id"), Get(session, "id")), fallback),
          time := time,
          sessionLabel := tag,
          isPremium := IsPremiumLabel(ToStr(tag))))
  }

  // ---------------------------------------------------------------------------
  // The event map and its updates, as values

  /** The map of events in insertion order (a JavaScript `Map` iterates its
      keys in the order they were first set), plus whether an exception was thrown. */
  datatype Programme = Programme(order: seq<Value>, records: map<Value, CinemaEvent>, failed: bool)

  const Empty: Programme := Programme([], map[], false)

  /** Each id once in `order`, and exactly the ids of `records`. */
  ghost predicate Wf(p: Programme)
  {
    NoDuplicates(p.order) && (forall id :: id in p.records <==> id in p.order)
  }

  /** `registerEvent`: an event that does not normalise registers nothing;
      a new id is added with no sessions; a known id is left as it was. */
  function Register(p: Programme, eventData: Value): (r: (Programme, Option<Value>))
    ensures r.1.Some? ==> r.1.value in r.0.records
    ensures r.0.failed == p.failed
    ensures p.records.Keys <= r.0.records.Keys
    ensures Wf(p) ==> Wf(r.0)
    ensures r.1.None? <==> NormalizeEvent(eventData).None?
    ensures r.1.Some? ==> r.1.value == NormalizeEvent(eventData).value.id
    ensures r.1.Some? && r.1.value in p.records ==> r.0 == p
    ensures r.1.Some? && r.1.value !in p.records ==>
      r.0.records == p.records[r.1.value := NormalizeEvent(eventData).value]
      && r.0.records[r.1.value].sessions == []
      && r.0.order == p.order + [r.1.value]
  {
    match NormalizeEvent(eventData)
    case None => (p, None)
    case Some(e) =>
      if e.id in p.records then (p, Some(e.id))
      else
        var q := Programme(p.order + [e.id], p.records[e.id := e], p.failed);
        assert Wf(p) ==> Wf(q) by {
          if Wf(p) {
            assert forall id :: id in q.order <==> id in p.order || id == e.id;
          }
        }
        (q, Some(e.id))
  }

  /** What the date test of `addSessionToEvent` does with `session.date`. */
  datatype DateCheck = Pass | Reject | Crash

  /** With a key and a truthy date: a string is compared on its first ten
      characters, an array slices to an array that never equals the key, and
      any other value has no `slice` and throws. */
  function CheckDate(date: Value, dateKey: string): (r: DateCheck)
    ensures dateKey == "" || !Truthy(date) ==> r == Pass
    ensures date.Str? && dateKey != "" ==> (r == Pass <==> date.s == "" || Take(date.s, 10) == dateKey)
    ensures r == Crash <==> dateKey != "" && Truthy(date) && !date.Str? && !date.Arr?
  {
    if dateKey == "" || !Truthy(date) then Pass
    else
      match date
      case Str(s) => if Take(s, 10) != dateKey then Reject else Pass
      case Arr(_) => Reject
      case _ => Crash
  }

  /** `addSessionToEvent`: with no event entry nothing happens; otherwise a
      session of another day is dropped, a session that does not normalise is
      dropped, and any other is appended to the entry's sessions. */
  function AddSession(p: Programme, key: Option<Value>, session: Value, dateKey: string): (r: Programme)
    requires key.Some? ==> key.value in p.records
    ensures r.order == p.order && r.records.Keys == p.records.Keys
    ensures key.Some? ==> key.value in r.records
    ensures Wf(p) ==> Wf(r)
    ensures key.Some? && CheckDate(Get(session, "date"), dateKey) == Crash ==> r.failed
    ensures key.None? || CheckDate(Get(session, "date"), dateKey) != Crash ==> r.failed == p.failed
    ensures key.Some? && CheckDate(Get(session, "date"), dateKey) == Pass && NormalizeSession(session).Some? ==>
      r.records == p.records[key.value := p.records[key.value].(sessions := p.records[key.value].sessions + [NormalizeSession(session).value])]
  {
    if key.None? then p
    else
      match CheckDate(Get(session, "date"), dateKey)
      case Crash => p.(failed := true)
      case Reject => p
      case Pass =>
        match NormalizeSession(session)
        case None => p
        case Some(s) =>
          var k := key.value;
          p.(records := p.records[k := p.records[k].(sessions := p.records[k].sessions + [s])])
  }

  /** `sessions.forEach((session) => addSessionToEvent(entry, session, dateKey))`,
      which stops at the first exception. */
  function AddSessions(p: Programme, key: Option<Value>, sessions: seq<Value>, dateKey: string): (r: Programme)
    requires key.Some? ==> key.value in p.records
    ensures key.Some? ==> key.value in r.records
    ensures r.order == p.order && r.records.Keys == p.records.Keys
    ensures Wf(p) ==> Wf(r)
    ensures p.failed ==> r == p
    decreases |sessions|
  {
    if sessions == [] then p
    else
      var q := AddSessions(p, key, sessions[..|sessions| - 1], dateKey);
      if q.failed then q else AddSession(q, key, sessions[|sessions| - 1], dateKey)
  }

  /** One more session of the list: added to the programme so far unless an
      exception has already been thrown. */
  lemma AddSessionsStep(p: Programme, key: Option<Value>, sessions: seq<Value>, i: nat, dateKey: string)
    requires key.Some? ==> key.value in p.records
    requires i < |sessions|
    ensures var q := AddSessions(p, key, sessions[..i], dateKey);
      AddSessions(p, key, sessions[..i + 1], dateKey)
        == if q.failed then q else AddSession(q, key, sessions[i], dateKey)
  {
    assert sessions[..i + 1][..i] == sessions[..i];
  }

  /** Once an exception is thrown the remaining sessions are not looked at. */
  lemma {:induction false} AddSessionsStopped(p: Programme, key: Option<Value>, sessions: seq<Value>, n: nat, dateKey: string)
    requires key.Some? ==> key.value in p.records
    requires n <= |sessions|
    requires AddSessions(p, key, sessions[..n], dateKey).failed
    ensures AddSessions(p, key, sessions, dateKey) == AddSessions(p, key, sessions[..n], dateKey)
    decreases |sessions| - n
  {
    if n < |sessions| {
      assert sessions[..n + 1][..n] == sessions[..n];
      AddSessionsStopped(p, key, sessions, n + 1, dateKey);
    } else {
      assert sessions[..n] == sessions;
    }
  }

  /** `entry.eventId || entry.event || entry.eventData`. */
  function EventRef(entry: Value): Value
  {
    Or(Or(Get(entry, "eventId"), Get(entry, "event")), Get(entry, "eventData"))
  }

  /** `entry.sessions || entry.showtimes`. */
  function SessionList(entry: Value): Value
  {
    Or(Get(entry, "sessions"), Get(entry, "showtimes"))
  }

  /** `Boolean(entry.sessionTime || entry.time || entry.startTime)`. */
  predicate IsSessionEntry(entry: Value)
  {
    Truthy(Or(Or(Get(entry, "sessionTime"), Get(entry, "time")), Get(entry, "startTime")))
  }

  /** `consumeEntry`: a group (an entry with a sessions or showtimes array)
      registers its event, or the entry itself, and adds every listed session;
      a bare session registers its referenced event and adds itself; anything
      else only registers the event it references. */
  function Consume(p: Programme, entry: Value, dateKey: string): (r: Programme)
    ensures Wf(p) ==> Wf(r)
    ensures p.records.Keys <= r.records.Keys
  {
    if !Truthy(entry) then p
    else if SessionList(entry).Arr? then
      var (q, key) := Register(p, Or(EventRef(entry), entry));
      AddSessions(q, key, SessionList(entry).items, dateKey)
    else if IsSessionEntry(entry) then
      var (q, key) := Register(p, EventRef(entry));
      AddSession(q, key, entry, dateKey)
    else if Truthy(EventRef(entry)) then Register(p, EventRef(entry)).0
    else p
  }

  /** `entries.forEach((entry) => consumeEntry(map, entry, dateKey))`, which
      stops at the first exception. */
  function ConsumeAll(p: Programme, entries: seq<Value>, dateKey: string): (r: Programme)
    ensures Wf(p) ==> Wf(r)
    ensures p.failed ==> r == p
    decreases |entries|
  {
    if entries == [] then p
    else
      var q := ConsumeAll(p, entries[..|entries| - 1], dateKey);
      if q.failed then q else Consume(q, entries[|entries| - 1], dateKey)
  }

  lemma {:induction false} ConsumeAllStopped(p: Programme, entries: seq<Value>, n: nat, dateKey: string)
    requires n <= |entries|
    requires ConsumeAll(p, entries[..n], dateKey).failed
    ensures ConsumeAll(p, entries, dateKey) == ConsumeAll(p, entries[..n], dateKey)
    decreases |entries| - n
  {
    if n < |entries| {
      assert entries[..n + 1][..n] == entries[..n];
      ConsumeAllStopped(p, entries, n + 1, dateKey);
    } else {
      assert entries[..n] == entries;
    }
  }

  /** `if (Array.isArray(list)) list.forEach(consume)`. */
  function Feed(p: Programme, list: Value, dateKey: string): (r: Programme)
    ensures Wf(p) ==> Wf(r)
  {
    if list.Arr? then ConsumeAll(p, list.items, dateKey) else p
  }

  /** The payload's `groups`, `events`, `sessions` and `data` arrays, then the
      payload itself when it is an array, all into one map. */
  function Collect(payload: Value, dateKey: string): (r: Programme)
    ensures Wf(r)
  {
    var p1 := Feed(Empty, Get(payload, "groups"), dateKey);
    var p2 := Feed(p1, Get(payload, "events"), dateKey);
    var p3 := Feed(p2, Get(payload, "sessions"), dateKey);
    var p4 := Feed(p3, Get(payload, "data"), dateKey);
    Feed(p4, payload, dateKey)
  }

  // ---------------------------------------------------------------------------
  // Properties of the updates

  /** Registering the same event twice is the same as registering it once. */
  lemma RegisterIdempotent(p: Programme, eventData: Value)
    ensures Register(Register(p, eventData).0, eventData) == Register(p, eventData)
  {
  }

  /** A known id keeps its first snapshot, sessions included. */
  lemma RegisterFirstWins(p: Programme, eventData: Value)
    requires NormalizeEvent(eventData).Some? && NormalizeEvent(eventData).value.id in p.records
    ensures Register(p, eventData) == (p, Some(NormalizeEvent(eventData).value.id))
  {
  }

  /** The map grows by at most one event, and not at all for an event that does not normalise. */
  lemma RegisterGrowth(p: Programme, eventData: Value)
    requires Wf(p)
    ensures |Register(p, eventData).0.order| <= |p.order| + 1
    ensures NormalizeEvent(eventData).None? ==> Register(p, eventData) == (p, None)
    ensures forall id :: id in p.records ==> Register(p, eventData).0.records[id] == p.records[id]
  {
    match NormalizeEvent(eventData)
    case None =>
    case Some(e) =>
      if e.id !in p.records {
        var q := Programme(p.order + [e.id], p.records[e.id := e], p.failed);
        assert Register(p, eventData).0 == q;
        assert |q.order| == |p.order| + 1;
      }
  }

  /** A session is only ever appended, at most one, to its own event. */
  lemma AddSessionAppends(p: Programme, key: Option<Value>, session: Value, dateKey: string)
    requires key.Some? ==> key.value in p.records
    ensures var r := AddSession(p, key, session, dateKey);
      forall id :: id in p.records && (key.None? || id != key.value) ==> r.records[id] == p.records[id]
    ensures var r := AddSession(p, key, session, dateKey);
      key.Some? ==> var k := key.value;
        r.records[k].sessions == p.records[k].sessions
        || (exists s :: NormalizeSession(session) == Some(s) && r.records[k].sessions == p.records[k].sessions + [s])
  {
  }

  /** A session dated another day is never added; a session of the key's
      day, or without a date, that normalises is appended; a truthy date
      with no `slice` throws. */
  lemma AddSessionDates(p: Programme, k: Value, session: Value, dateKey: string)
    requires k in p.records && dateKey != ""
    ensures var date := Get(session, "date");
      date.Str? && date.s != "" && Take(date.s, 10) != dateKey ==>
        AddSession(p, Some(k), session, dateKey) == p
    ensures !Truthy(Get(session, "date")) && NormalizeSession(session).Some? ==>
      AddSession(p, Some(k), session, dateKey).records[k].sessions
        == p.records[k].sessions + [NormalizeSession(session).value]
    ensures var date := Get(session, "date");
      date.Str? && Take(date.s, 10) == dateKey && NormalizeSession(session).Some? ==>
        AddSession(p, Some(k), session, dateKey).records[k].sessions
          == p.records[k].sessions + [NormalizeSession(session).value]
    ensures var date := Get(session, "date");
      Truthy(date) && !date.Str? && !date.Arr? ==> AddSession(p, Some(k), session, dateKey).failed
    ensures var date := Get(session, "date");
      date.Arr? && Truthy(date) ==> AddSession(p, Some(k), session, dateKey) == p
  {
  }

  /** A top-level event object with no session list, no session time and no
      event reference registers nothing. */
  lemma BareEventIgnored(p: Programme, entry: Value, dateKey: string)
    requires !SessionList(entry).Arr? && !IsSessionEntry(entry) && !Truthy(EventRef(entry))
    ensures Consume(p, entry, dateKey) == p
  {
  }

  /** A bare session registers the event it references, which then holds
      its earlier sessions (none when it is new) and this one, when the
      session is of the key's day and normalises. */
  lemma SessionEntryAdds(p: Programme, entry: Value, dateKey: string)
    requires Truthy(entry) && !SessionList(entry).Arr? && IsSessionEntry(entry)
    requires NormalizeEvent(EventRef(entry)).Some?
    ensures var id, r := NormalizeEvent(EventRef(entry)).value.id, Consume(p, entry, dateKey);
      id in r.records
      && (CheckDate(Get(entry, "date"), dateKey) == Pass && NormalizeSession(entry).Some? ==>
            r.records[id].sessions == (if id in p.records then p.records[id].sessions else []) + [NormalizeSession(entry).value])
      && (CheckDate(Get(entry, "date"), dateKey) == Crash ==> r.failed)
  {
  }

  /** A bare session whose reference does not normalise changes nothing. */
  lemma SessionEntryWithoutEvent(p: Programme, entry: Value, dateKey: string)
    requires Truthy(entry) && !SessionList(entry).Arr? && IsSessionEntry(entry)
    requires NormalizeEvent(EventRef(entry)).None?
    ensures Consume(p, entry, dateKey) == p
  {
  }

  /** A group without an event reference registers the entry itself. */
  lemma GroupRegistersItself(p: Programme, entry: Value, dateKey: string)
    requires Truthy(entry) && SessionList(entry).Arr? && !Truthy(EventRef(entry))
    requires NormalizeEvent(entry).Some?
    ensures NormalizeEvent(entry).value.id in Consume(p, entry, dateKey).records
  {
  }

  // ---------------------------------------------------------------------------
  // Ordering and the final result

  /** `toMinutes(session.time)` for a time that is a string. */
  function ShowingMinutes(s: Showing): int
  {
    if s.time.Str? then ToMinutes(s.time.s) else 0
  }

  /** The session comparator `toMinutes(a.time) - toMinutes(b.time) <= 0`. */
  predicate SessionLe(a: Showing, b: Showing)
  {
    ShowingMinutes(a) <= ShowingMinutes(b)
  }

  function FirstMinutes(e: CinemaEvent): int
  {
    if |e.sessions| > 0 then ShowingMinutes(e.sessions[0]) else 0
  }

  /** The event comparator: first-session minutes, then the French base
      collation of the titles (`collate(a, b)` is `a.localeCompare(b) <= 0`). */
  predicate EventLe(a: CinemaEvent, b: CinemaEvent, collate: (string, string) -> bool)
  {
    FirstMinutes(a) < FirstMinutes(b)
    || (FirstMinutes(a) == FirstMinutes(b) && collate(ToStr(a.title), ToStr(b.title)))
  }

  lemma SessionLePreorder()
    ensures TotalPreorder(SessionLe)
  {
  }

  lemma EventLePreorder(collate: (string, string) -> bool)
    requires TotalPreorder(collate)
    ensures TotalPreorder((a, b) => EventLe(a, b, collate))
  {
  }

  /** The events in map order, each with its sessions sorted by time. */
  function Records(p: Programme): (r: seq<CinemaEvent>)
    requires Wf(p)
    ensures |r| == |p.order|
  {
    seq(|p.order|, i requires 0 <= i < |p.order| =>
      var e := p.records[p.order[i]];
      e.(sessions := SortBy(e.sessions, SessionLe)))
  }

  /** A sort with a comparator calls it on every element of a list of two or
      more; `toMinutes` throws on a time that is not a string, and so does the
      event sort on a first session whose time is not a string. Events tied on
      minutes are compared by `title.localeCompare`, which a title that is not
      a string does not have. */
  predicate SortThrows(p: Programme)
    requires Wf(p)
  {
    (exists i :: 0 <= i < |p.order| && |Records(p)[i].sessions| >= 2
       && exists j :: 0 <= j < |Records(p)[i].sessions| && !Records(p)[i].sessions[j].time.Str?)
    || (|NonEmpty(Records(p))| >= 2
       && exists i :: 0 <= i < |NonEmpty(Records(p))| && !NonEmpty(Records(p))[i].sessions[0].time.Str?)
    || TitleTieThrows(NonEmpty(Records(p)))
  }

  /** Two events tied on first-session minutes, one of them with a title
      that is not a string. */
  predicate TitleTieThrows(events: seq<CinemaEvent>)
  {
    exists i, j :: 0 <= i < |events| && 0 <= j < |events| && i != j
      && FirstMinutes(events[i]) == FirstMinutes(events[j]) && !events[i].title.Str?
  }

  /** Tied events whose titles are all strings never throw, and a tie with a
      number as title always does. */
  lemma TitleTie(a: CinemaEvent, b: CinemaEvent)
    requires FirstMinutes(a) == FirstMinutes(b)
    ensures TitleTieThrows([a, b]) <==> !a.title.Str? || !b.title.Str?
    ensures b.title.Num? ==> TitleTieThrows([a, b])
  {
    if !a.title.Str? {
      assert [a, b][0] == a && [a, b][1] == b;
    } else if !b.title.Str? {
      assert [a, b][1] == b && [a, b][0] == a;
    }
  }

  function NonEmpty(events: seq<CinemaEvent>): (r: seq<CinemaEvent>)
    ensures forall e :: e in r ==> |e.sessions| > 0
  {
    Filter(events, (e: CinemaEvent) => |e.sessions| > 0)
  }

  /** The map's events, sessions sorted, empty events dropped, events sorted. */
  function Build(p: Programme, collate: (string, string) -> bool): seq<CinemaEvent>
    requires Wf(p)
  {
    SortBy(NonEmpty(Records(p)), (a, b) => EventLe(a, b, collate))
  }

  datatype ProgrammeResult = ProgrammeResult(date: string, events: seq<CinemaEvent>)

  /** `getSessionsByDate(dateKey)` once the response is known: an empty key
      returns at once; a failed request, or an exception while building,
      gives the key with no events. */
  function SessionsByDate(dateKey: string, response: Fetch, collate: (string, string) -> bool): (r: ProgrammeResult)
    ensures dateKey == "" ==> r == ProgrammeResult("", [])
    ensures dateKey != "" ==> r.date == dateKey
    ensures response.Failed? ==> r.events == []
    ensures dateKey != "" && response.Received?
            && (Collect(response.payload, dateKey).failed || SortThrows(Collect(response.payload, dateKey))) ==>
      r.events == []
  {
    if dateKey == "" then ProgrammeResult("", [])
    else
      match response
      case Failed => ProgrammeResult(dateKey, [])
      case Received(payload) =>
        var p := Collect(payload, dateKey);
        if p.failed || SortThrows(p) then ProgrammeResult(dateKey, [])
        else ProgrammeResult(dateKey, Build(p, collate))
  }

  /** Every event of the result has a session, its sessions are in time order,
      and the events are in comparator order. */
  lemma BuildOrdered(p: Programme, collate: (string, string) -> bool)
    requires Wf(p) && TotalPreorder(collate)
    ensures forall e :: e in Build(p, collate) ==> |e.sessions| >= 1
    ensures forall e :: e in Build(p, collate) ==> SortedBy(e.sessions, SessionLe)
    ensures SortedBy(Build(p, collate), (a, b) => EventLe(a, b, collate))
  {
    BuildEventsSorted(p, collate);
    BuildSessionsSorted(p, collate);
  }

  lemma BuildEventsSorted(p: Programme, collate: (string, string) -> bool)
    requires Wf(p) && TotalPreorder(collate)
    ensures SortedBy(Build(p, collate), (a, b) => EventLe(a, b, collate))
  {
    EventLePreorder(collate);
    SortBySorted(NonEmpty(Records(p)), (a, b) => EventLe(a, b, collate));
  }

  lemma BuildSessionsSorted(p: Programme, collate: (string, string) -> bool)
    requires Wf(p)
    ensures forall e :: e in Build(p, collate) ==> |e.sessions| >= 1 && SortedBy(e.sessions, SessionLe)
  {
    forall e | e in Build(p, collate)
      ensures |e.sessions| >= 1 && SortedBy(e.sessions, SessionLe)
    {
      BuildMember(p, collate, e);
      var all := Records(p);
      var i :| 0 <= i < |all| && all[i] == e;
      RecordSorted(p, i);
    }
  }

  lemma RecordSorted(p: Programme, i: nat)
    requires Wf(p) && i < |p.order|
    ensures SortedBy(Records(p)[i].sessions, SessionLe)
  {
    SessionLePreorder();
    SortBySorted(p.records[p.order[i]].sessions, SessionLe);
  }

  /** The result holds exactly the registered events that kept a session,
      each once. */
  lemma BuildMembers(p: Programme, collate: (string, string) -> bool)
    requires Wf(p)
    ensures multiset(Build(p, collate)) == multiset(NonEmpty(Records(p)))
    ensures forall e :: e in Build(p, collate) <==>
      exists i :: 0 <= i < |p.order| && e == Records(p)[i] && |e.sessions| > 0
  {
    forall e
      ensures e in Build(p, collate) <==> exists i :: 0 <= i < |p.order| && e == Records(p)[i] && |e.sessions| > 0
    {
      BuildMember(p, collate, e);
      var all := Records(p);
      if e in all {
        var i :| 0 <= i < |all| && all[i] == e;
        assert 0 <= i < |p.order| && e == Records(p)[i];
      }
    }
  }

  lemma BuildMember(p: Programme, collate: (string, string) -> bool, e: CinemaEvent)
    requires Wf(p)
    ensures e in Build(p, collate) <==> e in Records(p) && |e.sessions| > 0
  {
    var all := Records(p);
    calc {
      e in Build(p, collate);
      e in multiset(Build(p, collate));
      e in multiset(NonEmpty(all));
      e in NonEmpty(all);
    }
  }

  /** Sorting an event's sessions reorders them but loses or adds none. */
  lemma RecordsKeepSessions(p: Programme)
    requires Wf(p)
    ensures forall i :: 0 <= i < |p.order| ==>
      multiset(Records(p)[i].sessions) == multiset(p.records[p.order[i]].sessions)
  {
  }

  /** Unless building throws, the result holds exactly the collected events
      that kept a session for the day, each once, sessions sorted. */
  lemma SessionsByDateContents(dateKey: string, payload: Value, collate: (string, string) -> bool)
    requires dateKey != ""
    requires var p := Collect(payload, dateKey); !p.failed && !SortThrows(p)
    ensures var p, r := Collect(payload, dateKey), SessionsByDate(dateKey, Received(payload), collate);
      multiset(r.events) == multiset(NonEmpty(Records(p)))
    ensures var p, r := Collect(payload, dateKey), SessionsByDate(dateKey, Received(payload), collate);
      forall e :: e in r.events <==> exists i :: 0 <= i < |p.order| && e == Records(p)[i] && |e.sessions| > 0
    ensures var p, r := Collect(payload, dateKey), SessionsByDate(dateKey, Received(payload), collate);
      forall i :: 0 <= i < |p.order| ==> multiset(Records(p)[i].sessions) == multiset(p.records[p.order[i]].sessions)
  {
    BuildMembers(Collect(payload, dateKey), collate);
    RecordsKeepSessions(Collect(payload, dateKey));
  }

  /** Whatever the payload, every event returned has a session, sessions
      are in time order and events in comparator order. */
  lemma SessionsByDateOrdered(dateKey: string, response: Fetch, collate: (string, string) -> bool)
    requires TotalPreorder(collate)
    ensures var r := SessionsByDate(dateKey, response, collate);
      (forall e :: e in r.events ==> |e.sessions| >= 1 && SortedBy(e.sessions, SessionLe))
      && SortedBy(r.events, (a, b) => EventLe(a, b, collate))
  {
    if dateKey != "" && response.Received? {
      var p := Collect(response.payload, dateKey);
      if !p.failed && !SortThrows(p) {
        BuildOrdered(p, collate);
      }
    }
  }

  // ---------------------------------------------------------------------------
  // The builder as the source runs it: a map updated entry by entry

  class ProgrammeBuilder {
    var order: seq<Value>
    var records: map<Value, CinemaEvent>
    var failed: bool
    const dateKey: string

    function State(): Programme
      reads this
    {
      Programme(order, records, failed)
    }

    constructor (dateKey: string)
      ensures State() == Empty && this.dateKey == dateKey
    {
      order := [];
      records := map[];
      failed := false;
      this.dateKey := dateKey;
    }

    method RegisterEvent(eventData: Value) returns (key: Option<Value>)
      modifies this
      ensures (State(), key) == Register(old(State()), eventData)
    {
      match NormalizeEvent(eventData)
      case None =>
        key := None;
      case Some(e) =>
        if e.id !in records {
          records := records[e.id := e];
          order := order + [e.id];
        }
        key := Some(e.id);
    }

    method AddSessionToEvent(key: Option<Value>, session: Value)
      requires key.Some? ==> key.value in records
      modifies this
      ensures State() == AddSession(old(State()), key, session, dateKey)
    {
      if key.None? {
        return;
      }
      match CheckDate(Get(session, "date"), dateKey)
      case Crash =>
        failed := true;
      case Reject =>
      case Pass =>
        match NormalizeSession(session)
        case None =>
        case Some(s) =>
          var k := key.value;
          records := records[k := records[k].(sessions := records[k].sessions + [s])];
    }

    method AddSessionsToEvent(key: Option<Value>, sessions: seq<Value>)
      requires key.Some? ==> key.value in records
      modifies this
      ensures State() == AddSessions(old(State()), key, sessions, dateKey)
    {
      ghost var start := State();
      var i := 0;
      while i < |sessions| && !failed
        invariant 0 <= i <= |sessions|
        invariant key.Some? ==> key.value in records
        invariant State() == AddSessions(start, key, sessions[..i], dateKey)
      {
        AddSessionsStep(start, key, sessions, i, dateKey);
        AddSessionToEvent(key, sessions[i]);
        i := i + 1;
      }
      if i < |sessions| {
        AddSessionsStopped(start, key, sessions, i, dateKey);
      } else {
        assert sessions[..i] == sessions;
      }
    }

    method ConsumeEntry(entry: Value)
      modifies this
      ensures State() == Consume(old(State()), entry, dateKey)
    {
      if !Truthy(entry) {
        return;
      }
      var eventData := EventRef(entry);
      var list := SessionList(entry);
      if list.Arr? {
        var key := RegisterEvent(Or(eventData, entry));
        AddSessionsToEvent(key, list.items);
      } else if IsSessionEntry(entry) {
        var key := RegisterEvent(eventData);
        AddSessionToEvent(key, entry);
      } else if Truthy(eventData) {
        var _ := RegisterEvent(eventData);
      }
    }

    method ConsumeEntries(entries: seq<Value>)
      modifies this
      ensures State() == ConsumeAll(old(State()), entries, dateKey)
    {
      ghost var start := State();
      var i := 0;
      while i < |entries| && !failed
        invariant 0 <= i <= |entries|
        invariant State() == ConsumeAll(start, entries[..i], dateKey)
      {
        assert entries[..i + 1][..i] == entries[..i];
        ConsumeEntry(entries[i]);
        i := i + 1;
      }
      if i < |entries| {
        ConsumeAllStopped(start, entries, i, dateKey);
      } else {
        assert entries[..i] == entries;
      }
    }

    method FeedList(list: Value)
      modifies this
      ensures State() == Feed(old(State()), list, dateKey)
    {
      if list.Arr? {
        ConsumeEntries(list.items);
      }
    }
  }

  /** `getSessionsByDate(dateKey)`, the request's outcome given. */
  method GetSessionsByDate(dateKey: string, response: Fetch, collate: (string, string) -> bool)
    returns (result: ProgrammeResult)
    ensures result == SessionsByDate(dateKey, response, collate)
  {
    if dateKey == "" {
      return ProgrammeResult("", []);
    }
    if response.Failed? {
      return ProgrammeResult(dateKey, []);
    }
    var payload := response.payload;
    var builder := new ProgrammeBuilder(dateKey);
    builder.FeedList(Get(payload, "groups"));
    builder.FeedList(Get(payload, "events"));
    builder.FeedList(Get(payload, "sessions"));
    builder.FeedList(Get(payload, "data"));
    builder.FeedList(payload);
    var p := builder.State();
    if p.failed || SortThrows(p) {
      return ProgrammeResult(dateKey, []);
    }
    result := ProgrammeResult(dateKey, Build(p, collate));
  }
}
