/** The event page's loader: one event and its sessions, read from the
    upstream payload with a default for every display field.

    Reading `_id` off a `null` element of the sessions array throws a
    `TypeError`, and so does reading `event` off a `null` payload; the
    loader's `catch` turns either into the empty result, as it does a failed
    request. */
module EventApi {
  import opened Wrappers
  import opened Json

  const FALLBACK_POSTER: string := "/images/logo.png"

  /** A normalised event. */
  datatype EventDetails = EventDetails(
    id: Value,
    kind: Value,
    name: Value,
    poster: Value,
    genres: seq<Value>,
    duration: Option<int>,
    ageRestriction: Value,
    description: Value,
    trailerLink: Value,
    directedBy: Value,
    cast: seq<Value>)

  /** A normalised session. */
  datatype SessionRecord = SessionRecord(id: Value, date: Value, sessionTime: Value, version: Value, availableSeats: int)

  /** What `getEventSessions` returns. */
  datatype EventSessions = EventSessions(event: Option<EventDetails>, sessions: seq<SessionRecord>)

  const EMPTY: EventSessions := EventSessions(None, [])

  /** `Array.isArray(v) ? v : []`. */
  function ItemsOrEmpty(v: Value): (r: seq<Value>)
    ensures v.Arr? ==> r == v.items
    ensures !v.Arr? ==> r == []
  {
    if v.Arr? then v.items else []
  }

  /** `Number.isFinite(v) ? v : null`: every number of the model is finite. */
  function FiniteNumber(v: Value): (r: Option<int>)
    ensures r.Some? <==> v.Num?
    ensures r.Some? ==> r.value == v.n
  {
    if v.Num? then Some(v.n) else None
  }

  /** `normalizeEvent`: no record without a truthy event whose `_id` is
      truthy; otherwise each field, or its default when falsy. */
  function NormalizeEvent(event: Value): (r: Option<EventDetails>)
    ensures r.Some? <==> Truthy(event) && Truthy(Get(event, "_id"))
    ensures r.Some? ==> r.value.id == Get(event, "_id")
    ensures r.Some? ==> Truthy(r.value.name) && Truthy(r.value.poster)
    ensures r.Some? && Truthy(Get(event, "name")) ==> r.value.name == Get(event, "name")
    ensures r.Some? && !Truthy(Get(event, "name")) ==> r.value.name == Str("Événement")
    ensures r.Some? && Truthy(Get(event, "poster")) ==> r.value.poster == Get(event, "poster")
    ensures r.Some? && !Truthy(Get(event, "poster")) ==> r.value.poster == Str(FALLBACK_POSTER)
    ensures r.Some? ==> r.value.genres == ItemsOrEmpty(Get(event, "genres"))
    ensures r.Some? ==> r.value.cast == ItemsOrEmpty(Get(event, "cast"))
    ensures r.Some? ==> (r.value.duration.Some? <==> Get(event, "duration").Num?)
  {
    if !Truthy(event) || !Truthy(Get(event, "_id")) then None
    else
      Some(EventDetails(
        id := Get(event, "_id"),
        kind := OrEmpty(Get(event, "type")),
        name := Or(Get(event, "name"), Str("Événement")),
        poster := Or(Get(event, "poster"), Str(FALLBACK_POSTER)),
        genres := ItemsOrEmpty(Get(event, "genres")),
        duration := FiniteNumber(Get(event, "duration")),
        ageRestriction := OrEmpty(Get(event, "ageRestriction")),
        description := OrEmpty(Get(event, "description")),
        trailerLink := OrEmpty(Get(event, "trailerLink")),
        directedBy := OrEmpty(Get(event, "directedBy")),
        cast := ItemsOrEmpty(Get(event, "cast"))))
  }

  /** The record of one session: its fields as sent, the seat count if it
      is a number (negative ones included), else 0. */
  function NormalizeSession(session: Value): (r: SessionRecord)
    ensures r.id == Get(session, "_id") && r.date == Get(session, "date")
    ensures r.sessionTime == Get(session, "sessionTime") && r.version == Get(session, "version")
    ensures Get(session, "availableSeats").Num? ==> r.availableSeats == Get(session, "availableSeats").n
    ensures !Get(session, "availableSeats").Num? ==> r.availableSeats == 0
  {
    SessionRecord(
      id := Get(session, "_id"),
      date := Get(session, "date"),
      sessionTime := Get(session, "sessionTime"),
      version := Get(session, "version"),
      availableSeats := match FiniteNumber(Get(session, "availableSeats"))
        case Some(n) => n
        case None => 0)
  }

  /** `normalizeSessions`: [] for anything but an array, otherwise one record
      per element in order; `None` when an element is `null` or `undefined`,
      whose `_id` cannot be read. */
  function NormalizeSessions(sessions: Value): (r: Option<seq<SessionRecord>>)
    ensures !sessions.Arr? ==> r == Some([])
    ensures sessions.Arr? ==> (r.None? <==> exists i :: 0 <= i < |sessions.items| && Nullish(sessions.items[i]))
    ensures r.Some? ==> |r.value| == |ItemsOrEmpty(sessions)|
    ensures r.Some? ==> forall i :: 0 <= i < |r.value| ==> r.value[i] == NormalizeSession(ItemsOrEmpty(sessions)[i])
  {
    if !sessions.Arr? then Some([])
    else
      var items := sessions.items;
      if exists i :: 0 <= i < |items| && Nullish(items[i]) then None
      else Some(seq(|items|, i requires 0 <= i < |items| => NormalizeSession(items[i])))
  }

  /** Record `i` is the normalised element `i`: nothing is filtered or
      reordered, every field is the element's own, and the seat count is
      the element's number or 0. */
  lemma SessionsInOrder(sessions: Value, i: int)
    requires NormalizeSessions(sessions).Some? && 0 <= i < |NormalizeSessions(sessions).value|
    ensures sessions.Arr?
    ensures NormalizeSessions(sessions).value[i] == NormalizeSession(sessions.items[i])
    ensures var record, item := NormalizeSessions(sessions).value[i], sessions.items[i];
      record.id == Get(item, "_id") && record.date == Get(item, "date")
      && record.sessionTime == Get(item, "sessionTime") && record.version == Get(item, "version")
      && record.availableSeats == (if Get(item, "availableSeats").Num? then Get(item, "availableSeats").n else 0)
  {
  }

  /** `getEventSessions(eventId)`, the request's outcome given: no request
      for a falsy id; any failure gives the empty result. */
  function EventSessionsOf(eventId: Value, response: Fetch): (r: EventSessions)
    ensures !Truthy(eventId) || response.Failed? ==> r == EMPTY
    ensures response.Received? && Nullish(response.payload) ==> r == EMPTY
    ensures r.event.Some? ==> Truthy(eventId) && response.Received?
    ensures (Truthy(eventId) && response.Received? && !Nullish(response.payload)
             && NormalizeSessions(Get(response.payload, "sessions")).None?) ==> r == EMPTY
  {
    if !Truthy(eventId) then EMPTY
    else
      match response
      case Failed => EMPTY
      case Received(payload) =>
        if Nullish(payload) then EMPTY
        else
          match NormalizeSessions(Get(payload, "sessions"))
          case None => EMPTY
          case Some(sessions) => EventSessions(NormalizeEvent(Get(payload, "event")), sessions)
  }

  /** A payload whose sessions can all be read gives its event and exactly
      its sessions. */
  lemma EventSessionsReceived(eventId: Value, payload: Value)
    requires Truthy(eventId) && !Nullish(payload)
    requires NormalizeSessions(Get(payload, "sessions")).Some?
    ensures var r := EventSessionsOf(eventId, Received(payload));
      r.event == NormalizeEvent(Get(payload, "event"))
      && |r.sessions| == |ItemsOrEmpty(Get(payload, "sessions"))|
      && r.sessions == NormalizeSessions(Get(payload, "sessions")).value
    ensures var r := EventSessionsOf(eventId, Received(payload));
      forall i :: 0 <= i < |r.sessions| ==> r.sessions[i] == NormalizeSession(Get(payload, "sessions").items[i])
  {
  }

  /** A `null` or `undefined` session in the list makes `session._id`
      throw, and the catch gives the empty result. */
  lemma NullSessionGivesEmpty(eventId: Value, payload: Value, i: int)
    requires Truthy(eventId) && !Nullish(payload)
    requires Get(payload, "sessions").Arr? && 0 <= i < |Get(payload, "sessions").items|
    requires Nullish(Get(payload, "sessions").items[i])
    ensures EventSessionsOf(eventId, Received(payload)) == EMPTY
  {
  }

  // ---------------------------------------------------------------------------
  // Normalising twice changes nothing

  /** The record as the object it is sent on as. */
  function EventValue(e: EventDetails): Value
  {
    Obj(map[
      "_id" := e.id, "type" := e.kind, "name" := e.name, "poster" := e.poster,
      "genres" := Arr(e.genres),
      "duration" := match e.duration case Some(n) => Num(n) case None => Null,
      "ageRestriction" := e.ageRestriction, "description" := e.description,
      "trailerLink" := e.trailerLink, "directedBy" := e.directedBy, "cast" := Arr(e.cast)])
  }

  /** Each field of the object reads back as the record's field. */
  lemma EventValueFields(e: EventDetails)
    ensures var v := EventValue(e);
      Get(v, "_id") == e.id && Get(v, "type") == e.kind && Get(v, "name") == e.name
      && Get(v, "poster") == e.poster && Get(v, "genres") == Arr(e.genres)
      && Get(v, "duration") == (match e.duration case Some(n) => Num(n) case None => Null)
      && Get(v, "ageRestriction") == e.ageRestriction && Get(v, "description") == e.description
      && Get(v, "trailerLink") == e.trailerLink && Get(v, "directedBy") == e.directedBy
      && Get(v, "cast") == Arr(e.cast)
  {
  }

  /** Reading a normalised event back gives the same record. */
  lemma NormalizeEventIdempotent(event: Value)
    requires NormalizeEvent(event).Some?
    ensures NormalizeEvent(EventValue(NormalizeEvent(event).value)) == NormalizeEvent(event)
  {
    EventValueFields(NormalizeEvent(event).value);
  }

  function SessionValue(s: SessionRecord): Value
  {
    Obj(map[
      "_id" := s.id, "date" := s.date, "sessionTime" := s.sessionTime,
      "version" := s.version, "availableSeats" := Num(s.availableSeats)])
  }

  lemma NormalizeSessionIdempotent(s: SessionRecord)
    ensures NormalizeSession(SessionValue(s)) == s
  {
    var v := SessionValue(s);
    assert Get(v, "_id") == s.id;
    assert Get(v, "date") == s.date;
    assert Get(v, "sessionTime") == s.sessionTime;
    assert Get(v, "version") == s.version;
    assert Get(v, "availableSeats") == Num(s.availableSeats);
  }

  /** Reading normalised sessions back gives the same records. */
  lemma NormalizeSessionsIdempotent(sessions: Value)
    requires NormalizeSessions(sessions).Some?
    ensures var records := NormalizeSessions(sessions).value;
      NormalizeSessions(Arr(seq(|records|, i requires 0 <= i < |records| => SessionValue(records[i])))) == Some(records)
  {
    var records := NormalizeSessions(sessions).value;
    var items := seq(|records|, i requires 0 <= i < |records| => SessionValue(records[i]));
    assert forall i :: 0 <= i < |items| ==> !Nullish(items[i]);
    forall i | 0 <= i < |items|
      ensures NormalizeSession(items[i]) == records[i]
    {
      NormalizeSessionIdempotent(records[i]);
    }
    assert !exists i :: 0 <= i < |items| && Nullish(items[i]);
    var again := seq(|items|, i requires 0 <= i < |items| => NormalizeSession(items[i]));
    assert NormalizeSessions(Arr(items)) == Some(again);
    assert again == records;
  }
}
