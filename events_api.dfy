/** The catalogue loader behind the events page: the listed events, the
    "à l'affiche" entries, the show types and the coming events, each read
    from the upstream payload with its documented defaults.

    Reading `events` off a `null` payload throws a `TypeError`; the loader's
    `catch` turns it, like a failed request, into four empty lists. */
module EventsApi {
  import opened Wrappers
  import opened Strings
  import opened Json
  import opened Sequences
  import opened Labels
  import CinemaApi
  import EventApi

  const FALLBACK_POSTER: string := "/images/logo.png"

  /** A normalised event as the catalogue shows it. */
  datatype EventCard = EventCard(
    id: Value,
    kind: Value,
    title: Value,
    description: Value,
    image: Value,
    imageAlt: string,
    meta: Value,
    genres: seq<Value>,
    duration: Option<int>,
    trailerLink: Value)

  /** One "à l'affiche" entry. */
  datatype Affiche = Affiche(
    event: Option<EventCard>,
    eventId: Value,
    poster: Value,
    title: Value,
    subtitle: Value,
    eventPoster: Value,
    eventAffiche: bool)

  /** What `getEventsWithALaffiche` returns. */
  datatype Listing = Listing(events: seq<EventCard>, aLaffiche: seq<Affiche>, showTypes: seq<Value>, prochainement: seq<EventCard>)

  const EMPTY: Listing := Listing([], [], [], [])

  /** The first genre when `genres` is a non-empty array, else "". */
  function GenreLabel(event: Value): (r: Value)
    ensures Get(event, "genres").Arr? && |Get(event, "genres").items| > 0 ==> r == Get(event, "genres").items[0]
    ensures !(Get(event, "genres").Arr? && |Get(event, "genres").items| > 0) ==> r == Str("")
  {
    var genres := Get(event, "genres");
    if genres.Arr? && |genres.items| > 0 then genres.items[0] else Str("")
  }

  /** `normalizeEvent`: no card without a truthy event whose `_id` is
      truthy (an `id` field alone is not enough); otherwise the fields with
      their defaults, and the meta line of the first genre and the running
      time. */
  function NormalizeEvent(event: Value): (r: Option<EventCard>)
    ensures r.Some? <==> Truthy(event) && Truthy(Get(event, "_id"))
    ensures r.Some? ==> r.value.id == Get(event, "_id")
    ensures r.Some? ==> Truthy(r.value.title) && Truthy(r.value.image)
    ensures r.Some? && Truthy(Get(event, "name")) ==> r.value.imageAlt == "Affiche de " + ToStr(Get(event, "name"))
    ensures r.Some? && !Truthy(Get(event, "name")) ==> r.value.imageAlt == "Affiche de l'événement"
    ensures r.Some? ==> r.value.meta == BuildMetaLine(GenreLabel(event), Str(FormatDuration(Get(event, "duration"))))
  {
    if !Truthy(event) || !Truthy(Get(event, "_id")) then None
    else
      var name := Get(event, "name");
      var genres := Get(event, "genres");
      Some(EventCard(
        id := Get(event, "_id"),
        kind := OrEmpty(Get(event, "type")),
        title := Or(name, Str("Événement")),
        description := OrEmpty(Get(event, "description")),
        image := Or(Get(event, "poster"), Str(FALLBACK_POSTER)),
        imageAlt := if Truthy(name) then "Affiche de " + ToStr(name) else "Affiche de l'événement",
        meta := BuildMetaLine(GenreLabel(event), Str(FormatDuration(Get(event, "duration")))),
        genres := if genres.Arr? then genres.items else [],
        duration := if Get(event, "duration").Num? then Some(Get(event, "duration").n) else None,
        trailerLink := OrEmpty(Get(event, "trailerLink"))))
  }

  /** The catalogue card and the event page's record accept the same events
      and agree on the fields they share. */
  lemma CardAgreesWithDetails(event: Value)
    ensures NormalizeEvent(event).Some? <==> EventApi.NormalizeEvent(event).Some?
    ensures NormalizeEvent(event).Some? ==>
      var card, details := NormalizeEvent(event).value, EventApi.NormalizeEvent(event).value;
      card.id == details.id && card.kind == details.kind && card.title == details.name
      && card.image == details.poster && card.genres == details.genres
      && card.duration == details.duration && card.description == details.description
      && card.trailerLink == details.trailerLink
  {
  }

  /** Unlike the cinema programme's normaliser, an `id` without `_id` is
      refused. */
  lemma IdAloneRefused(event: Value)
    requires Truthy(event) && Truthy(Get(event, "id")) && !Truthy(Get(event, "_id"))
    ensures NormalizeEvent(event).None?
    ensures CinemaApi.NormalizeEvent(event).Some?
  {
  }

  /** The meta line: "genre • duration" when the event has both, otherwise
      whichever it has, otherwise "". */
  lemma MetaLine(event: Value)
    requires NormalizeEvent(event).Some?
    ensures var meta := NormalizeEvent(event).value.meta;
      var g, d := GenreLabel(event), FormatDuration(Get(event, "duration"));
      (Truthy(g) && d != "" ==> meta == Str(ToStr(g) + " • " + d))
      && (Truthy(g) && d == "" ==> meta == g)
      && (!Truthy(g) ==> meta == Str(d))
  {
  }

  // ---------------------------------------------------------------------------
  // "À l'affiche"

  /** An array as is, a single truthy entry as a list of one, else []. */
  function EntryList(entries: Value): (r: seq<Value>)
    ensures entries.Arr? ==> r == entries.items
    ensures !entries.Arr? && Truthy(entries) ==> r == [entries]
    ensures !Truthy(entries) ==> r == []
  {
    if entries.Arr? then entries.items else if Truthy(entries) then [entries] else []
  }

  /** `entry?.eventId || entry?.event`. */
  function EventData(entry: Value): Value
  {
    Or(Get(entry, "eventId"), Get(entry, "event"))
  }

  /** The entry carries something to show on its own. */
  predicate HasContent(entry: Value)
  {
    Truthy(Get(entry, "poster")) || Truthy(Get(entry, "title"))
    || Truthy(Get(entry, "subtitle")) || Truthy(Get(entry, "eventAffiche"))
  }

  /** The normalised event's field, or `undefined` without one. */
  function CardField(card: Option<EventCard>, field: EventCard -> Value): Value
  {
    match card case Some(c) => field(c) case None => Undefined
  }

  /** The event id: the normalised id, else a string `eventId`, else the
      stringified `_id` of the event data. That last fallback is never
      reached: event data with a truthy `_id` always normalises, so the
      first one has already answered (`EventIdPrecedence`). */
  function RawEventId(entry: Value, card: Option<EventCard>): Value
  {
    var data := EventData(entry);
    var fromString := if Get(entry, "eventId").Str? then Get(entry, "eventId") else Undefined;
    var fromData := if Truthy(Get(data, "_id")) then Str(ToStr(Get(data, "_id"))) else Undefined;
    Or(Or(CardField(card, (c: EventCard) => c.id), fromString), fromData)
  }

  /** One entry of `normalizeALaffiche`; `None` is the `null` the filter
      drops. */
  function AfficheOf(entry: Value): (r: Option<Affiche>)
    ensures r.None? <==> NormalizeEvent(EventData(entry)).None? && !HasContent(entry)
    ensures r.Some? ==> Truthy(r.value.poster)
    ensures r.Some? ==> r.value.event == NormalizeEvent(EventData(entry))
    ensures r.Some? ==> r.value.eventAffiche == Truthy(Get(entry, "eventAffiche"))
  {
    var data := EventData(entry);
    var card := NormalizeEvent(data);
    if card.None? && !HasContent(entry) then None
    else
      var eventPoster := Or(Get(data, "poster"), CardField(card, (c: EventCard) => c.image));
      Some(Affiche(
        event := card,
        eventId := RawEventId(entry, card),
        poster := Or(Or(Get(entry, "poster"), eventPoster), Str(FALLBACK_POSTER)),
        title := Or(Get(entry, "title"), CardField(card, (c: EventCard) => c.title)),
        subtitle := Or(Get(entry, "subtitle"), CardField(card, (c: EventCard) => c.description)),
        eventPoster := eventPoster,
        eventAffiche := Truthy(Get(entry, "eventAffiche"))))
  }

  /** The poster: the entry's, else the event data's, else the normalised
      image, else the fallback. */
  lemma PosterPrecedence(entry: Value)
    requires AfficheOf(entry).Some?
    ensures var poster, data := AfficheOf(entry).value.poster, EventData(entry);
      (Truthy(Get(entry, "poster")) ==> poster == Get(entry, "poster"))
      && (!Truthy(Get(entry, "poster")) && Truthy(Get(data, "poster")) ==> poster == Get(data, "poster"))
      && (!Truthy(Get(entry, "poster")) && !Truthy(Get(data, "poster")) && NormalizeEvent(data).Some? ==>
            poster == NormalizeEvent(data).value.image)
      && (!Truthy(Get(entry, "poster")) && !Truthy(Get(data, "poster")) && NormalizeEvent(data).None? ==>
            poster == Str(FALLBACK_POSTER))
  {
  }

  /** The event id is the normalised id when there is one, else a non-empty
      string `eventId`, else `undefined`: the stringified `_id` never
      contributes, since event data with a truthy `_id` always normalises. */
  lemma EventIdPrecedence(entry: Value)
    requires AfficheOf(entry).Some?
    ensures var id, card := AfficheOf(entry).value.eventId, NormalizeEvent(EventData(entry));
      (card.Some? ==> id == card.value.id)
      && (card.None? && Truthy(Get(entry, "eventId")) && Get(entry, "eventId").Str? ==> id == Get(entry, "eventId"))
      && (card.None? && !(Truthy(Get(entry, "eventId")) && Get(entry, "eventId").Str?) ==> id == Undefined)
  {
  }

  /** `normalizeALaffiche(entries)`. */
  function NormalizeALaffiche(entries: Value): (r: seq<Affiche>)
    ensures !Truthy(entries) ==> r == []
    ensures forall a :: a in r ==> Truthy(a.poster)
    ensures |r| <= |EntryList(entries)|
  {
    FilterMap(EntryList(entries), AfficheOf)
  }

  /** The entries kept are exactly those with an event or content, in input
      order: the entries of a split list are those of its halves. */
  lemma ALafficheOrder(a: seq<Value>, b: seq<Value>)
    ensures NormalizeALaffiche(Arr(a + b)) == NormalizeALaffiche(Arr(a)) + NormalizeALaffiche(Arr(b))
    ensures forall e :: e in a && (NormalizeEvent(EventData(e)).Some? || HasContent(e)) ==>
      AfficheOf(e).value in NormalizeALaffiche(Arr(a))
  {
    FilterMapAppend(a, b, AfficheOf);
  }

  /** A single entry is read as a list of one. */
  lemma ALaffiche(entry: Value)
    requires Truthy(entry) && !entry.Arr?
    ensures NormalizeALaffiche(entry) == NormalizeALaffiche(Arr([entry]))
    ensures |NormalizeALaffiche(entry)| == 1 <==> AfficheOf(entry).Some?
  {
    assert [entry][1..] == [];
  }

  // ---------------------------------------------------------------------------
  // Lists and the loader

  /** `Array.isArray(v) ? v.map(normalizeEvent).filter(Boolean) : []`. */
  function EventsOf(v: Value): (r: seq<EventCard>)
    ensures !v.Arr? ==> r == []
    ensures v.Arr? ==> |r| <= |v.items|
    ensures v.Arr? ==> forall c :: c in r <==> exists e :: e in v.items && NormalizeEvent(e) == Some(c)
  {
    if v.Arr? then FilterMap(v.items, NormalizeEvent) else []
  }

  /** The cards keep the order of the events: those of a split list are the
      cards of its first half, then those of its second. */
  lemma EventsOfOrder(a: seq<Value>, b: seq<Value>)
    ensures EventsOf(Arr(a + b)) == EventsOf(Arr(a)) + EventsOf(Arr(b))
    ensures EventsOf(Arr([])) == []
  {
    FilterMapAppend(a, b, NormalizeEvent);
  }

  /** `entry?.name || entry`, kept when truthy. */
  function ShowType(entry: Value): (r: Option<Value>)
    ensures r.Some? <==> Truthy(Or(Get(entry, "name"), entry))
    ensures r.Some? ==> r.value == Or(Get(entry, "name"), entry)
  {
    var name := Or(Get(entry, "name"), entry);
    if Truthy(name) then Some(name) else None
  }

  /** The show types: [] for a non-array, else each entry's name or the entry
      itself, falsy ones dropped. */
  function ShowTypes(v: Value): (r: seq<Value>)
    ensures !v.Arr? ==> r == []
    ensures forall t :: t in r ==> Truthy(t)
    ensures v.Arr? ==> forall t :: t in r <==> exists e :: e in v.items && ShowType(e) == Some(t)
    ensures v.Arr? ==> forall e :: e in v.items && Truthy(Get(e, "name")) ==> Get(e, "name") in r
    ensures v.Arr? ==> forall e :: e in v.items && e.Str? && e.s != "" ==> e in r
  {
    if v.Arr? then FilterMap(v.items, ShowType) else []
  }

  /** The show types keep the order of the entries, as `map` and `filter`
      do. */
  lemma ShowTypesOrder(a: seq<Value>, b: seq<Value>)
    ensures ShowTypes(Arr(a + b)) == ShowTypes(Arr(a)) + ShowTypes(Arr(b))
    ensures forall e :: ShowTypes(Arr([e])) == (if Truthy(Or(Get(e, "name"), e)) then [Or(Get(e, "name"), e)] else [])
  {
    FilterMapAppend(a, b, ShowType);
    forall e
      ensures ShowTypes(Arr([e])) == (if Truthy(Or(Get(e, "name"), e)) then [Or(Get(e, "name"), e)] else [])
    {
      assert [e][1..] == [];
    }
  }

  /** `getEventsWithALaffiche(...)`, the request's outcome given. */
  function ListingOf(response: Fetch): (r: Listing)
    ensures response.Failed? ==> r == EMPTY
    ensures response.Received? && Nullish(response.payload) ==> r == EMPTY
    ensures forall t :: t in r.showTypes ==> Truthy(t)
    ensures forall a :: a in r.aLaffiche ==> Truthy(a.poster)
    ensures response.Received? && !Nullish(response.payload) ==>
      r.events == EventsOf(Get(response.payload, "events"))
      && r.showTypes == ShowTypes(Get(response.payload, "showTypes"))
      && r.prochainement == EventsOf(Get(response.payload, "prochainement"))
  {
    match response
    case Failed => EMPTY
    case Received(payload) =>
      if Nullish(payload) then EMPTY
      else Listing(
        events := EventsOf(Get(payload, "events")),
        aLaffiche := NormalizeALaffiche(Or(Get(payload, "aLaffiche"), Arr([]))),
        showTypes := ShowTypes(Get(payload, "showTypes")),
        prochainement := EventsOf(Get(payload, "prochainement")))
  }

  /** The `|| []` default changes nothing: a falsy `aLaffiche` already reads
      as no entries. */
  lemma ALafficheDefault(payload: Value)
    requires !Nullish(payload)
    ensures ListingOf(Received(payload)).aLaffiche == NormalizeALaffiche(Get(payload, "aLaffiche"))
  {
    if !Truthy(Get(payload, "aLaffiche")) {
      assert NormalizeALaffiche(Arr([])) == [];
    }
  }

  /** A readable payload gives, in each list, exactly the cards of the
      events that normalise and the truthy show-type names. */
  lemma ListingContents(payload: Value)
    requires !Nullish(payload)
    ensures var r, events := ListingOf(Received(payload)), Get(payload, "events");
      forall c :: c in r.events <==> events.Arr? && exists e :: e in events.items && NormalizeEvent(e) == Some(c)
    ensures var r, coming := ListingOf(Received(payload)), Get(payload, "prochainement");
      forall c :: c in r.prochainement <==> coming.Arr? && exists e :: e in coming.items && NormalizeEvent(e) == Some(c)
    ensures var r, types := ListingOf(Received(payload)), Get(payload, "showTypes");
      forall t :: t in r.showTypes <==> types.Arr? && exists e :: e in types.items && ShowType(e) == Some(t)
  {
  }
}
