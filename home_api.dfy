/** The home page loader: hero slides, films now showing, shows and coming
    events, read from the upstream payload with their defaults.

    `new Date(value)` is the parameter `parseTime` (milliseconds since the
    epoch, `None` for an invalid date), the French day-and-month label of
    `formatDateLabel` is the parameter `intlLabel`, and `Date.now()` is the
    parameter `now`.

    A section that is truthy but not an array has no `filter`/`map`, and an
    item that is `null` or `undefined` has no fields; either throws a
    `TypeError`, and so does a `null` payload. `normalizeHomeData` then has
    no result (`None`), and the loader's `catch` normalises `undefined`
    instead. */
module HomeApi {
  import opened Wrappers
  import opened Strings
  import opened Json
  import opened Sequences
  import opened Labels

  const FALLBACK_POSTER: string := "/images/logo.png"
  const HERO_TITLE_LEAD: string := "À LA UNE"
  const HERO_TITLE_HIGHLIGHT: string := "EXPÉRIENCE CINÉMA"
  const HERO_SUBTITLE: string := "Plongez dans les derniers blockbusters avec un son et une image de qualité supérieure. Vivez le cinéma comme jamais auparavant."
  const HERO_IMAGE: string := "https://lh3.googleusercontent.com/aida-public/AB6AXuBu1xY2sBF4hbn7uFPA6T-PAZeX0kYTpSgUCe9R7afddNmtMYYcyLraIYSGXNGvGbErCVjRkf7Mq5_8jGOr4hwF9uJRN-qhdXWD2iOW_kniXonNiLqvWTFHOkpdLuH4HzR1JTHD4d9RoI0CW1JW-hVbKcw7tulYYLz7TfqeBeYYPRfvAosp773eDm78Di5Y9YTh-aFPdkJASFoakwlqwtUuJyNOfg1WppifzLRn9OAVlKpak-AabL9FoIWTGYWYMz0yPqAHCNpopC8"
  const HERO_IMAGE_ALT: string := "Scène cinématographique dramatique avec éclairage bleu et violet"

  /** Seven days in milliseconds. */
  const WEEK_MS: int := 7 * 24 * 60 * 60 * 1000

  const NOW_SHOWING_LIMIT: nat := 5
  const UPCOMING_LIMIT: nat := 2

  datatype HeroSlide = HeroSlide(
    id: Value, titleLead: Value, titleHighlight: Value, subtitle: Value,
    image: Value, imageAlt: Value, eventId: Value)

  datatype FilmCard = FilmCard(
    id: Value, title: Value, meta: Value, badge: string, badgeTone: string,
    image: Value, imageAlt: string, createdAt: Value)

  datatype ShowCard = ShowCard(id: Value, title: Value, genre: Value, meta: string, image: Value, imageAlt: string)

  datatype ComingCard = ComingCard(
    id: Value, title: Value, date: string, description: Value, image: Value, imageAlt: string)

  datatype HomeData = HomeData(
    heroSlides: seq<HeroSlide>, nowShowing: seq<FilmCard>, spectacles: seq<ShowCard>, upcoming: seq<ComingCard>)

  /** The slide shown when the payload has none. */
  const FALLBACK_SLIDE: HeroSlide := HeroSlide(
    Str("fallback"), Str(HERO_TITLE_LEAD), Str(HERO_TITLE_HIGHLIGHT), Str(HERO_SUBTITLE),
    Str(HERO_IMAGE), Str(HERO_IMAGE_ALT), Undefined)

  /** `items[0]` of a non-empty `genres` array, else the default. */
  function FirstGenre(item: Value, default: string): (r: Value)
    ensures Truthy(Get(item, "genres")) && Get(item, "genres").Arr? && |Get(item, "genres").items| > 0 ==>
      r == Get(item, "genres").items[0]
    ensures !(Get(item, "genres").Arr? && |Get(item, "genres").items| > 0) ==> r == Str(default)
  {
    var genres := Get(item, "genres");
    if genres.Arr? && |genres.items| > 0 then genres.items[0] else Str(default)
  }

  /** `buildVersionsLabel`: "" unless a non-empty array, else its elements
      joined by " • ". */
  function VersionsLabel(versions: Value): (r: string)
    ensures !(versions.Arr? && |versions.items| > 0) ==> r == ""
    ensures versions.Arr? && |versions.items| == 1 ==> r == JoinText(versions.items[0])
    ensures versions.Arr? && |versions.items| == 1 && versions.items[0].Str? ==> r == versions.items[0].s
    ensures versions.Arr? && |versions.items| >= 2 ==>
              r == JoinText(versions.items[0]) + " • " + VersionsLabel(Arr(versions.items[1..]))
    decreases if versions.Arr? then |versions.items| else 0
  {
    if versions.Arr? && |versions.items| > 0 then
      if |versions.items| >= 2 then JoinValuesFront(versions.items, " • "); JoinValues(versions.items, " • ")
      else JoinValues(versions.items, " • ")
    else ""
  }

  /** A section as a list: `section || []`, which must be an array. */
  function Section(payload: Value, key: string): Option<seq<Value>>
  {
    var v := Or(Get(payload, key), Arr([]));
    if v.Arr? then Some(v.items) else None
  }

  /** `items.map(f)`; `None` when an item is `null` or `undefined`. */
  function MapItems<T>(items: seq<Value>, f: Value -> T): (r: Option<seq<T>>)
    ensures r.None? <==> exists i :: 0 <= i < |items| && Nullish(items[i])
    ensures r.Some? ==> |r.value| == |items| && forall i :: 0 <= i < |items| ==> r.value[i] == f(items[i])
  {
    if exists i :: 0 <= i < |items| && Nullish(items[i]) then None
    else Some(seq(|items|, i requires 0 <= i < |items| => f(items[i])))
  }

  // ---------------------------------------------------------------------------
  // Hero slides

  /** `slide && slide.active !== false`. */
  predicate IsActive(slide: Value)
  {
    Truthy(slide) && Get(slide, "active") != Bool(false)
  }

  /** `slide.order ?? 0` as a number. */
  function SlideOrder(slide: Value): int
  {
    match ToNumber(Coalesce(Get(slide, "order"), Num(0)))
    case Some(n) => n
    case None => 0
  }

  /** The comparator `(a.order ?? 0) - (b.order ?? 0)` is at most 0. */
  predicate OrderLe(a: Value, b: Value)
  {
    SlideOrder(a) <= SlideOrder(b)
  }

  lemma OrderLePreorder()
    ensures TotalPreorder(OrderLe)
  {
  }

  /** The active slides in order. */
  function ActiveSlides(slides: seq<Value>): (r: seq<Value>)
    ensures forall s :: s in r <==> s in slides && IsActive(s)
  {
    var kept := Filter(slides, IsActive);
    var sorted := SortBy(kept, OrderLe);
    assert forall s :: s in sorted <==> s in kept by {
      forall s ensures s in sorted <==> s in kept {
        assert s in sorted <==> s in multiset(sorted);
      }
    }
    sorted
  }

  function ToHeroSlide(slide: Value): (r: HeroSlide)
    ensures r.titleLead == Undefined && r.id == Get(slide, "_id") && r.eventId == Get(slide, "eventId")
    ensures Truthy(r.titleHighlight) && Truthy(r.subtitle) && Truthy(r.image) && Truthy(r.imageAlt)
  {
    var title := Get(slide, "title");
    HeroSlide(
      id := Get(slide, "_id"),
      titleLead := Undefined,
      titleHighlight := Or(title, Str(HERO_TITLE_HIGHLIGHT)),
      subtitle := Or(Get(slide, "subtitle"), Str(HERO_SUBTITLE)),
      image := Or(Get(slide, "poster"), Str(HERO_IMAGE)),
      imageAlt := if Truthy(title) then Str("Affiche de " + ToStr(title)) else Str(HERO_IMAGE_ALT),
      eventId := Get(slide, "eventId"))
  }

  /** `toHeroSlides`: the active slides by `order`, or the fallback slide
      alone. */
  function HeroSlides(slides: seq<Value>): (r: seq<HeroSlide>)
    ensures |r| >= 1
    ensures |ActiveSlides(slides)| > 0 ==> |r| == |ActiveSlides(slides)|
    ensures |ActiveSlides(slides)| > 0 ==> forall i :: 0 <= i < |r| ==> r[i] == ToHeroSlide(ActiveSlides(slides)[i])
  {
    var active := ActiveSlides(slides);
    if |active| > 0 then seq(|active|, i requires 0 <= i < |active| => ToHeroSlide(active[i]))
    else [FALLBACK_SLIDE]
  }

  /** The fallback slide is shown exactly when no slide is active. */
  lemma HeroFallback(slides: seq<Value>)
    ensures HeroSlides(slides) == [FALLBACK_SLIDE] <==> forall s :: s in slides ==> !IsActive(s)
  {
    var active := ActiveSlides(slides);
    if |active| > 0 {
      assert active[0] in active;
      assert HeroSlides(slides)[0].titleLead == Undefined;
    }
  }

  /** The kept slides are the active ones, ordered by `order`, and slides
      of equal order keep their input order. */
  lemma HeroOrder(slides: seq<Value>, k: Value)
    ensures SortedBy(ActiveSlides(slides), OrderLe)
    ensures multiset(ActiveSlides(slides)) == multiset(Filter(slides, IsActive))
    ensures Class(ActiveSlides(slides), k, OrderLe) == Class(Filter(slides, IsActive), k, OrderLe)
  {
    OrderLePreorder();
    SortBySorted(Filter(slides, IsActive), OrderLe);
    SortByStable(Filter(slides, IsActive), k, OrderLe);
  }

  // ---------------------------------------------------------------------------
  // Cards

  /** Created within the last week, or in the future. */
  predicate IsNew(item: Value, now: int, parseTime: Value -> Option<int>)
  {
    var createdAt := Get(item, "createdAt");
    Truthy(createdAt) && parseTime(createdAt).Some? && now - parseTime(createdAt).value <= WEEK_MS
  }

  function ToFilmCard(item: Value, now: int, parseTime: Value -> Option<int>): (r: FilmCard)
    ensures r.badge == "Nouveau" <==> IsNew(item, now, parseTime)
    ensures r.badgeTone == "accent" <==> IsNew(item, now, parseTime)
    ensures r.badge == "" <==> !IsNew(item, now, parseTime)
    ensures Truthy(r.title) && Truthy(r.image)
  {
    var name := Get(item, "name");
    var isNew := IsNew(item, now, parseTime);
    FilmCard(
      id := Get(item, "_id"),
      title := Or(name, Str("Film")),
      meta := BuildMetaLine(FirstGenre(item, "Film"), Str(FormatDurationHome(Get(item, "duration")))),
      badge := if isNew then "Nouveau" else "",
      badgeTone := if isNew then "accent" else "",
      image := Or(Get(item, "poster"), Str(FALLBACK_POSTER)),
      imageAlt := if Truthy(name) then "Affiche du film " + ToStr(name) else "Affiche du film",
      createdAt := Or(Get(item, "createdAt"), Null))
  }

  /** A film created at a parsed time `t` is new exactly while no more than
      a week has passed, and always when `t` is in the future. */
  lemma NewBadgeWindow(item: Value, now: int, parseTime: Value -> Option<int>, t: int)
    requires Truthy(Get(item, "createdAt")) && parseTime(Get(item, "createdAt")) == Some(t)
    ensures ToFilmCard(item, now, parseTime).badge == "Nouveau" <==> now <= t + WEEK_MS
    ensures t >= now ==> ToFilmCard(item, now, parseTime).badge == "Nouveau"
  {
  }

  predicate NonEmpty(part: string) { part != "" }

  /** The non-empty ones of two labels, in order. */
  lemma NonEmptyParts(a: string, b: string)
    ensures Filter([a, b], NonEmpty) == (if a != "" then [a] else []) + (if b != "" then [b] else [])
  {
    assert [a, b][1..] == [b];
    assert [b][1..] == [];
  }

  /** `[durationLabel, versionsLabel].filter(Boolean).join(" • ")`, or
      "Durée à confirmer". */
  function ShowMeta(duration: string, versions: string): (r: string)
    ensures r != ""
    ensures duration != "" && versions != "" ==> r == duration + " • " + versions
    ensures duration != "" && versions == "" ==> r == duration
    ensures duration == "" && versions != "" ==> r == versions
    ensures duration == "" && versions == "" ==> r == "Durée à confirmer"
  {
    NonEmptyParts(duration, versions);
    var joined := Join(Filter([duration, versions], NonEmpty), " • ");
    assert duration != "" && versions != "" ==> joined == duration + " • " + Join([versions], " • ");
    if joined == "" then "Durée à confirmer" else joined
  }

  /** `toSpectacles`' card: the genre is the first of a non-empty `genres`
      array, whatever it is (an empty string included), else "Spectacle". */
  function ToShowCard(item: Value): (r: ShowCard)
    ensures r.meta != "" && Truthy(r.title) && Truthy(r.image)
    ensures Get(item, "genres").Arr? && |Get(item, "genres").items| > 0 ==> r.genre == Get(item, "genres").items[0]
    ensures !(Get(item, "genres").Arr? && |Get(item, "genres").items| > 0) ==> r.genre == Str("Spectacle")
  {
    var name := Get(item, "name");
    var genre := FirstGenre(item, "Spectacle");
    ShowCard(
      id := Get(item, "_id"),
      title := Or(name, Str("Spectacle")),
      genre := genre,
      meta := ShowMeta(FormatDurationHome(Get(item, "duration")), VersionsLabel(Get(item, "availableVersions"))),
      image := Or(Get(item, "poster"), Str(FALLBACK_POSTER)),
      imageAlt := if Truthy(name) then "Affiche du spectacle " + ToStr(name) else "Affiche du spectacle")
  }

  /** `formatDateLabel`: "" for a falsy value, else the locale label. */
  function DateLabel(v: Value, intlLabel: Value -> string): (r: string)
    ensures !Truthy(v) ==> r == ""
  {
    if !Truthy(v) then "" else intlLabel(v)
  }

  function ToComingCard(item: Value, intlLabel: Value -> string): (r: ComingCard)
    ensures r.date != "" && Truthy(r.title) && Truthy(r.description) && Truthy(r.image)
  {
    var name := Get(item, "name");
    var dateText := DateLabel(Or(Or(Get(item, "releaseDate"), Get(item, "availableFrom")), Get(item, "createdAt")), intlLabel);
    ComingCard(
      id := Get(item, "_id"),
      title := Or(name, Str("Bientôt")),
      date := if dateText != "" then dateText else "Bientôt",
      description := Or(Get(item, "description"), Str("Découvrez bientôt cette nouvelle expérience.")),
      image := Or(Get(item, "poster"), Str(FALLBACK_POSTER)),
      imageAlt := if Truthy(name) then "Teaser du film " + ToStr(name) else "Teaser du film")
  }

  // ---------------------------------------------------------------------------
  // The page data

  /** `toNowShowing(items)`. */
  function FilmCards(items: seq<Value>, now: int, parseTime: Value -> Option<int>): (r: Option<seq<FilmCard>>)
    ensures r.None? <==> exists i :: 0 <= i < |items| && Nullish(items[i])
    ensures r.Some? ==> |r.value| == |items|
    ensures r.Some? ==> forall i :: 0 <= i < |items| ==> r.value[i] == ToFilmCard(items[i], now, parseTime)
  {
    MapItems(items, item => ToFilmCard(item, now, parseTime))
  }

  /** `toSpectacles(items)`. */
  function ShowCards(items: seq<Value>): (r: Option<seq<ShowCard>>)
    ensures r.None? <==> exists i :: 0 <= i < |items| && Nullish(items[i])
    ensures r.Some? ==> |r.value| == |items|
    ensures r.Some? ==> forall i :: 0 <= i < |items| ==> r.value[i] == ToShowCard(items[i])
  {
    MapItems(items, ToShowCard)
  }

  /** `toUpcoming(items)`. */
  function ComingCards(items: seq<Value>, intlLabel: Value -> string): (r: Option<seq<ComingCard>>)
    ensures r.None? <==> exists i :: 0 <= i < |items| && Nullish(items[i])
    ensures r.Some? ==> |r.value| == |items|
    ensures r.Some? ==> forall i :: 0 <= i < |items| ==> r.value[i] == ToComingCard(items[i], intlLabel)
  {
    MapItems(items, item => ToComingCard(item, intlLabel))
  }

  /** A section whose items are read with `item.name`, `item._id` and so
      on: a nullish item throws. */
  predicate HasNullishItem(section: Option<seq<Value>>)
  {
    section.Some? && exists i :: 0 <= i < |section.value| && Nullish(section.value[i])
  }

  /** When `normalizeHomeData` throws: reading a field of `null`, a truthy
      section that is not an array (it has no `filter` or `map`), or a
      nullish film, show or coming event. */
  predicate HomeDataThrows(payload: Value)
  {
    payload.Null?
    || Section(payload, "homeSlider").None? || Section(payload, "aLaffiche").None?
    || Section(payload, "spectacles").None? || Section(payload, "prochainement").None?
    || HasNullishItem(Section(payload, "aLaffiche")) || HasNullishItem(Section(payload, "spectacles"))
    || HasNullishItem(Section(payload, "prochainement"))
  }

  /** `normalizeHomeData(payload, { limitNowShowing, limitUpcoming })`;
      `None` when it throws. An `undefined` payload is the default `{}`. */
  function NormalizeHomeData(payload: Value, limitNowShowing: bool, limitUpcoming: bool,
                             now: int, parseTime: Value -> Option<int>, intlLabel: Value -> string): (r: Option<HomeData>)
    ensures payload.Null? ==> r.None?
    ensures r.None? <==> HomeDataThrows(payload)
    ensures r.Some? ==> |r.value.heroSlides| >= 1
    ensures r.Some? && limitNowShowing ==> |r.value.nowShowing| <= NOW_SHOWING_LIMIT
    ensures r.Some? && limitUpcoming ==> |r.value.upcoming| <= UPCOMING_LIMIT
    ensures r.Some? ==> r.value.heroSlides == HeroSlides(Section(payload, "homeSlider").value)
    ensures r.Some? ==> var films := FilmCards(Section(payload, "aLaffiche").value, now, parseTime).value;
      r.value.nowShowing == if limitNowShowing then Take(films, NOW_SHOWING_LIMIT) else films
    ensures r.Some? ==> r.value.spectacles == ShowCards(Section(payload, "spectacles").value).value
    ensures r.Some? ==> var coming := ComingCards(Section(payload, "prochainement").value, intlLabel).value;
      r.value.upcoming == if limitUpcoming then Take(coming, UPCOMING_LIMIT) else coming
  {
    if payload.Null? then None
    else
      var slides, films := Section(payload, "homeSlider"), Section(payload, "aLaffiche");
      var shows, coming := Section(payload, "spectacles"), Section(payload, "prochainement");
      if slides.None? || films.None? || shows.None? || coming.None? then None
      else
        var nowShowing := FilmCards(films.value, now, parseTime);
        var spectacles := ShowCards(shows.value);
        var upcoming := ComingCards(coming.value, intlLabel);
        if nowShowing.None? || spectacles.None? || upcoming.None? then None
        else
          Some(HomeData(
            heroSlides := HeroSlides(slides.value),
            nowShowing := if limitNowShowing then Take(nowShowing.value, NOW_SHOWING_LIMIT) else nowShowing.value,
            spectacles := spectacles.value,
            upcoming := if limitUpcoming then Take(upcoming.value, UPCOMING_LIMIT) else upcoming.value))
  }

  /** What the page shows without data: the fallback slide and no cards. */
  const FALLBACK_DATA: HomeData := HomeData([FALLBACK_SLIDE], [], [], [])

  /** Missing sections count as empty: an empty payload gives the fallback
      data, whatever the limits. */
  lemma NormalizeUndefined(limitNowShowing: bool, limitUpcoming: bool, now: int,
                           parseTime: Value -> Option<int>, intlLabel: Value -> string)
    ensures NormalizeHomeData(Undefined, limitNowShowing, limitUpcoming, now, parseTime, intlLabel) == Some(FALLBACK_DATA)
  {
    var none: seq<Value> := [];
    assert Section(Undefined, "homeSlider") == Some(none);
    assert Section(Undefined, "aLaffiche") == Some(none);
    assert Section(Undefined, "spectacles") == Some(none);
    assert Section(Undefined, "prochainement") == Some(none);
    assert FilmCards(none, now, parseTime) == Some([]);
    assert ShowCards(none) == Some([]);
    assert ComingCards(none, intlLabel) == Some([]);
    assert Filter(none, IsActive) == [];
    assert HeroSlides(none) == [FALLBACK_SLIDE];
  }

  /** The limits keep the first five films and the first two coming events;
      without them the lists are whole: one card per item of the section,
      card `i` made from item `i`. */
  lemma Limits(payload: Value, now: int, parseTime: Value -> Option<int>, intlLabel: Value -> string)
    requires NormalizeHomeData(payload, false, false, now, parseTime, intlLabel).Some?
    ensures var full := NormalizeHomeData(payload, false, false, now, parseTime, intlLabel).value;
      var capped := NormalizeHomeData(payload, true, true, now, parseTime, intlLabel);
      capped.Some? && capped.value.nowShowing == Take(full.nowShowing, NOW_SHOWING_LIMIT)
      && capped.value.upcoming == Take(full.upcoming, UPCOMING_LIMIT)
      && capped.value.heroSlides == full.heroSlides && capped.value.spectacles == full.spectacles
    ensures var full := NormalizeHomeData(payload, false, false, now, parseTime, intlLabel).value;
      var films := Section(payload, "aLaffiche").value;
      |full.nowShowing| == |films|
      && forall i :: 0 <= i < |films| ==> full.nowShowing[i] == ToFilmCard(films[i], now, parseTime)
    ensures var full := NormalizeHomeData(payload, false, false, now, parseTime, intlLabel).value;
      var coming := Section(payload, "prochainement").value;
      |full.upcoming| == |coming|
      && forall i :: 0 <= i < |coming| ==> full.upcoming[i] == ToComingCard(coming[i], intlLabel)
  {
  }

  /** With the limits on, the films shown are the first five of the section
      (fewer when it is shorter), card `i` made from item `i`. */
  lemma LimitedFilms(payload: Value, now: int, parseTime: Value -> Option<int>, intlLabel: Value -> string)
    requires NormalizeHomeData(payload, true, true, now, parseTime, intlLabel).Some?
    ensures var data := NormalizeHomeData(payload, true, true, now, parseTime, intlLabel).value;
      var films := Section(payload, "aLaffiche").value;
      |data.nowShowing| == (if |films| < NOW_SHOWING_LIMIT then |films| else NOW_SHOWING_LIMIT)
      && forall i :: 0 <= i < |data.nowShowing| ==> data.nowShowing[i] == ToFilmCard(films[i], now, parseTime)
    ensures var data := NormalizeHomeData(payload, true, true, now, parseTime, intlLabel).value;
      var coming := Section(payload, "prochainement").value;
      |data.upcoming| == (if |coming| < UPCOMING_LIMIT then |coming| else UPCOMING_LIMIT)
      && forall i :: 0 <= i < |data.upcoming| ==> data.upcoming[i] == ToComingCard(coming[i], intlLabel)
  {
    var data := NormalizeHomeData(payload, true, true, now, parseTime, intlLabel).value;
    var cards := FilmCards(Section(payload, "aLaffiche").value, now, parseTime).value;
    assert data.nowShowing <= cards;
    var coming := ComingCards(Section(payload, "prochainement").value, intlLabel).value;
    assert data.upcoming <= coming;
  }

  /** `getHomeData(options)`, the request's outcome given: any failure,
      including one thrown while normalising, gives the fallback data. */
  function HomeDataOf(response: Fetch, limitNowShowing: bool, limitUpcoming: bool,
                      now: int, parseTime: Value -> Option<int>, intlLabel: Value -> string): (r: HomeData)
    ensures |r.heroSlides| >= 1
    ensures response.Failed? ==> r == FALLBACK_DATA
    ensures response.Received? && !HomeDataThrows(response.payload) ==>
      r == NormalizeHomeData(response.payload, limitNowShowing, limitUpcoming, now, parseTime, intlLabel).value
    ensures response.Received? && HomeDataThrows(response.payload) ==> r == FALLBACK_DATA
  {
    var fallback := NormalizeHomeData(Undefined, limitNowShowing, limitUpcoming, now, parseTime, intlLabel);
    NormalizeUndefined(limitNowShowing, limitUpcoming, now, parseTime, intlLabel);
    match response
    case Failed => fallback.value
    case Received(payload) =>
      match NormalizeHomeData(payload, limitNowShowing, limitUpcoming, now, parseTime, intlLabel)
      case Some(data) => data
      case None => fallback.value
  }

  /** A `null` payload falls back as a failure does. */
  lemma NullPayloadFallsBack(limitNowShowing: bool, limitUpcoming: bool, now: int,
                             parseTime: Value -> Option<int>, intlLabel: Value -> string)
    ensures HomeDataOf(Received(Null), limitNowShowing, limitUpcoming, now, parseTime, intlLabel) == FALLBACK_DATA
  {
    NormalizeUndefined(limitNowShowing, limitUpcoming, now, parseTime, intlLabel);
  }

  /** So does a `null` film in an otherwise empty payload. */
  lemma NullFilmFallsBack(limitNowShowing: bool, limitUpcoming: bool, now: int,
                          parseTime: Value -> Option<int>, intlLabel: Value -> string)
    ensures HomeDataOf(Received(Obj(map["aLaffiche" := Arr([Null])])), limitNowShowing, limitUpcoming, now, parseTime, intlLabel)
      == FALLBACK_DATA
  {
    var payload := Obj(map["aLaffiche" := Arr([Null])]);
    assert Section(payload, "aLaffiche") == Some([Null]);
    assert Nullish([Null][0]);
    assert FilmCards([Null], now, parseTime).None?;
    assert NormalizeHomeData(payload, limitNowShowing, limitUpcoming, now, parseTime, intlLabel).None?;
    NormalizeUndefined(limitNowShowing, limitUpcoming, now, parseTime, intlLabel);
  }
}
