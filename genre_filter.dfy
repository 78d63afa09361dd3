/** The genre filter of the events page: the link a choice leads to, the
    labels genres are shown by, and the options of the select, each genre
    once and in French alphabetical order.

    The comparison `a.localeCompare(b, "fr", { sensitivity: "base" }) <= 0`
    is the parameter `collate`. */
module GenreFilter {
  import opened Wrappers
  import opened Strings
  import opened Json
  import opened Sequences
  import opened UrlQuery

  const EVENTS_PATH: string := "/evenements"

  // ---------------------------------------------------------------------------
  // buildHref

  /** The pairs of the link: `type`, then `genre`, each only when non-empty.
      An absent type is the empty string here. */
  function HrefParams(kind: string, genre: string): Params
  {
    (if kind != "" then [("type", kind)] else []) + (if genre != "" then [("genre", genre)] else [])
  }

  /** `buildHref(type, genre)`: the events page, with a query only when
      there is something to put in it. */
  function BuildHref(kind: string, genre: string, encode: string -> string): (r: string)
    ensures r == EVENTS_PATH <==> kind == "" && genre == ""
    ensures StartsWith(r, EVENTS_PATH)
  {
    var query := Serialize(HrefParams(kind, genre), encode);
    if query != "" then EVENTS_PATH + "?" + query else EVENTS_PATH
  }

  /** Reading the link back gives the type, then the genre, each exactly
      when it was non-empty. */
  lemma HrefRoundTrip(kind: string, genre: string, encode: string -> string, decode: string -> string)
    requires FormCodec(encode, decode)
    ensures ParseQuery(QueryOf(BuildHref(kind, genre, encode)), decode) == HrefParams(kind, genre)
    ensures Param(HrefParams(kind, genre), "type") == if kind != "" then Some(kind) else None
    ensures Param(HrefParams(kind, genre), "genre") == if genre != "" then Some(genre) else None
  {
    var query := Serialize(HrefParams(kind, genre), encode);
    assert '?' !in EVENTS_PATH && '#' !in EVENTS_PATH;
    if query != "" {
      SerializeNoHash(HrefParams(kind, genre), encode, decode);
      QueryOfPathQuery(EVENTS_PATH, query);
    } else {
      QueryOfPath(EVENTS_PATH);
    }
    ParseSerialize(HrefParams(kind, genre), encode, decode);
  }

  // ---------------------------------------------------------------------------
  // toLabel

  /** `toLabel(value)`: "" for a falsy value, a string as it is, an object
      (arrays included) by its `name`, `label` or `value`, anything else
      through `String(...)`. */
  function ToLabel(v: Value): (r: Value)
    ensures !Truthy(v) ==> r == Str("")
    ensures v.Str? ==> r == v
    ensures Truthy(v) && (v.Num? || v.Bool?) ==> r == Str(ToStr(v))
    ensures Truthy(v) && (v.Obj? || v.Arr?) ==> r == Or(Get(v, "name"), Or(Get(v, "label"), Or(Get(v, "value"), Str(""))))
  {
    if !Truthy(v) then Str("")
    else if v.Str? then v
    else if v.Obj? || v.Arr? then Or(Get(v, "name"), Or(Get(v, "label"), Or(Get(v, "value"), Str(""))))
    else Str(ToStr(v))
  }

  /** Strings and numbers are labels of their own: a label never needs a
      second pass, and a non-empty string label is the genre itself. */
  lemma ToLabelIdempotent(v: Value)
    requires v.Str? || v.Num? || v.Bool?
    ensures ToLabel(v).Str?
    ensures ToLabel(ToLabel(v)) == ToLabel(v)
  {
  }

  // ---------------------------------------------------------------------------
  // uniqueSortedGenres

  function LabelsOf(items: seq<Value>): (r: seq<Value>)
    ensures |r| == |items|
    ensures forall k :: 0 <= k < |items| ==> r[k] == ToLabel(items[k])
  {
    seq(|items|, k requires 0 <= k < |items| => ToLabel(items[k]))
  }

  /** `new Set((genres || []).map(toLabel).filter(Boolean))` with
      `currentGenre` added when truthy, in insertion order; `None` when
      `genres` is truthy and not an array, whose `map` throws. */
  function OptionValues(genres: Value, currentGenre: Value): (r: Option<seq<Value>>)
    ensures r.None? <==> Truthy(genres) && !genres.Arr?
  {
    if Truthy(genres) && !genres.Arr? then None
    else
      var items := if genres.Arr? then genres.items else [];
      var labels := Filter(LabelsOf(items), Truthy);
      Some(Dedup(labels + (if Truthy(currentGenre) then [currentGenre] else [])))
  }

  predicate AllText(vs: seq<Value>)
  {
    forall k :: 0 <= k < |vs| ==> vs[k].Str?
  }

  function Texts(vs: seq<Value>): (r: seq<string>)
    requires AllText(vs)
    ensures |r| == |vs|
    ensures forall k :: 0 <= k < |vs| ==> vs[k] == Str(r[k])
  {
    seq(|vs|, k requires 0 <= k < |vs| => vs[k].s)
  }

  /** `uniqueSortedGenres(genres, currentGenre)`: the options sorted by
      `collate`; `None` when `genres` cannot be mapped, or when an option is
      not a string (see README). */
  function UniqueSortedGenres(genres: Value, currentGenre: Value, collate: (string, string) -> bool): (r: Option<seq<string>>)
    ensures r.Some? ==> OptionValues(genres, currentGenre).Some?
    ensures r.Some? ==> |r.value| == |OptionValues(genres, currentGenre).value|
  {
    match OptionValues(genres, currentGenre)
    case None => None
    case Some(vs) => if AllText(vs) then Some(SortBy(Texts(vs), collate)) else None
  }

  /** The option values are duplicate-free and are exactly the truthy
      labels and the truthy current genre. */
  lemma OptionValuesMembers(genres: Value, currentGenre: Value)
    requires OptionValues(genres, currentGenre).Some?
    ensures NoDuplicates(OptionValues(genres, currentGenre).value)
    ensures forall v :: v in OptionValues(genres, currentGenre).value <==>
              Truthy(v) && ((genres.Arr? && v in LabelsOf(genres.items)) || v == currentGenre)
  {
  }

  /** Sorting the texts of duplicate-free string values keeps them
      duplicate-free and keeps exactly their texts. */
  lemma SortedTexts(vs: seq<Value>, collate: (string, string) -> bool)
    requires AllText(vs) && NoDuplicates(vs)
    ensures NoDuplicates(SortBy(Texts(vs), collate))
    ensures forall s :: s in SortBy(Texts(vs), collate) <==> Str(s) in vs
    ensures TotalPreorder(collate) ==> SortedBy(SortBy(Texts(vs), collate), collate)
  {
    var texts := Texts(vs);
    var opts := SortBy(texts, collate);
    forall i, j | 0 <= i < j < |texts|
      ensures texts[i] != texts[j]
    {
      assert vs[i] != vs[j];
    }
    NoDuplicatesPermutation(texts, opts);
    forall s
      ensures s in opts <==> Str(s) in vs
    {
      assert s in opts <==> s in multiset(texts);
      if Str(s) in vs {
        var k :| 0 <= k < |vs| && vs[k] == Str(s);
        assert texts[k] == s;
      }
    }
    if TotalPreorder(collate) {
      SortBySorted(texts, collate);
    }
  }

  /** What is offered: each genre once, none empty, exactly the non-empty
      labels of the genres plus the current genre, in `collate` order. */
  lemma GenreOptions(genres: Value, currentGenre: Value, collate: (string, string) -> bool, opts: seq<string>)
    requires UniqueSortedGenres(genres, currentGenre, collate) == Some(opts)
    ensures NoDuplicates(opts)
    ensures forall k :: 0 <= k < |opts| ==> opts[k] != ""
    ensures forall s :: s in opts <==> s != "" && ((genres.Arr? && Str(s) in LabelsOf(genres.items)) || currentGenre == Str(s))
    ensures TotalPreorder(collate) ==> SortedBy(opts, collate)
  {
    var vs := OptionValues(genres, currentGenre).value;
    OptionValuesMembers(genres, currentGenre);
    SortedTexts(vs, collate);
    OptionsMembers(genres, currentGenre, collate, opts);
    forall k | 0 <= k < |opts|
      ensures opts[k] != ""
    {
      assert opts[k] in opts;
    }
  }

  lemma OptionsMembers(genres: Value, currentGenre: Value, collate: (string, string) -> bool, opts: seq<string>)
    requires UniqueSortedGenres(genres, currentGenre, collate) == Some(opts)
    ensures forall s :: s in opts <==> s != "" && ((genres.Arr? && Str(s) in LabelsOf(genres.items)) || currentGenre == Str(s))
  {
    var vs := OptionValues(genres, currentGenre).value;
    OptionValuesMembers(genres, currentGenre);
    SortedTexts(vs, collate);
    forall s
      ensures s in opts <==> s != "" && ((genres.Arr? && Str(s) in LabelsOf(genres.items)) || currentGenre == Str(s))
    {
      assert s in opts <==> Str(s) in vs;
      assert Truthy(Str(s)) <==> s != "";
    }
  }

  /** A list of strings and numbers, with a string or nothing selected, can
      always be offered. */
  lemma PlainGenresOffered(genres: seq<Value>, currentGenre: Value, collate: (string, string) -> bool)
    requires forall k :: 0 <= k < |genres| ==> genres[k].Str? || genres[k].Num?
    requires currentGenre.Str? || !Truthy(currentGenre)
    ensures UniqueSortedGenres(Arr(genres), currentGenre, collate).Some?
  {
    var vs := OptionValues(Arr(genres), currentGenre).value;
    OptionValuesMembers(Arr(genres), currentGenre);
    forall k | 0 <= k < |vs|
      ensures vs[k].Str?
    {
      assert vs[k] in vs;
      if vs[k] != currentGenre {
        var labels := LabelsOf(genres);
        assert vs[k] in labels;
        var j :| 0 <= j < |labels| && labels[j] == vs[k];
        assert labels[j] == ToLabel(genres[j]);
      }
    }
  }

  // ---------------------------------------------------------------------------
  // The select

  /** `currentGenre || ""`: "" is the "Genre : Tous" option. */
  function SelectValue(currentGenre: Value): (r: Value)
    ensures Truthy(currentGenre) ==> r == currentGenre
    ensures !Truthy(currentGenre) ==> r == Str("")
  {
    Or(currentGenre, Str(""))
  }

  /** The select always shows one of its options: "Tous" or an offered
      genre. */
  lemma SelectShowsAnOption(genres: Value, currentGenre: Value, collate: (string, string) -> bool, opts: seq<string>)
    requires UniqueSortedGenres(genres, currentGenre, collate) == Some(opts)
    ensures SelectValue(currentGenre) == Str("") || (SelectValue(currentGenre).Str? && SelectValue(currentGenre).s in opts)
  {
    if Truthy(currentGenre) {
      CurrentGenreOffered(genres, currentGenre, collate, opts);
    }
  }

  /** A truthy current genre is a string among the options. */
  lemma CurrentGenreOffered(genres: Value, currentGenre: Value, collate: (string, string) -> bool, opts: seq<string>)
    requires UniqueSortedGenres(genres, currentGenre, collate) == Some(opts)
    requires Truthy(currentGenre)
    ensures currentGenre.Str? && currentGenre.s in opts
  {
    var vs := OptionValues(genres, currentGenre).value;
    OptionValuesMembers(genres, currentGenre);
    assert AllText(vs);
    assert currentGenre in vs;
    var k :| 0 <= k < |vs| && vs[k] == currentGenre;
    assert currentGenre.Str?;
    GenreOptions(genres, currentGenre, collate, opts);
  }
}
