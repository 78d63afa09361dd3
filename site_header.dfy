/** The site header's navigation: which link is highlighted as the current
    page, given the path and the `type` of the page's own query. */
module SiteHeader {
  import opened Wrappers
  import opened Strings
  import opened UrlQuery

  datatype NavLink = NavLink(labelText: string, href: string)

  const EVENTS_PATH: string := "/evenements"
  const CINEMA_PATH: string := "/cinema"

  /** The links of the header, in the order they are shown. */
  const NAV_LINKS: seq<NavLink> := [
    NavLink("Films", "/evenements?type=movie"),
    NavLink("Spectacles", "/evenements?type=show"),
    NavLink("Cinéma", "/cinema"),
    NavLink("À propos", "#"),
    NavLink("Réserver l'espace", "#")
  ]

  /** `resolveType(value)`: shows only for exactly "show", films otherwise. */
  function ResolveType(value: Option<string>): (r: string)
    ensures r == "show" || r == "movie"
    ensures r == "show" <==> value == Some("show")
  {
    if value == Some("show") then "show" else "movie"
  }

  /** `new URL(href, base).searchParams.get("type")`. */
  function LinkType(href: string, decode: string -> string): Option<string>
  {
    Param(ParseQuery(QueryOf(href), decode), "type")
  }

  /** `isLinkActive(href)` on a page at `pathname` whose query resolves to
      `currentType`. */
  function IsLinkActive(href: string, pathname: string, currentType: string, decode: string -> string): bool
  {
    if href == "" || href == "#" then false
    else if StartsWith(href, EVENTS_PATH) then
      StartsWith(pathname, EVENTS_PATH) && ResolveType(LinkType(href, decode)) == currentType
    else if StartsWith(href, CINEMA_PATH) then StartsWith(pathname, CINEMA_PATH)
    else pathname == href
  }

  /** An events link's type is read back from its query. */
  lemma EventsLinkType(value: string, decode: string -> string)
    requires IsWord(value) && KeepsWords(decode)
    ensures LinkType(EVENTS_PATH + "?type=" + value, decode) == Some(value)
  {
    var query := "type" + "=" + value;
    assert EVENTS_PATH + "?type=" + value == EVENTS_PATH + "?" + query;
    assert '?' !in EVENTS_PATH && '#' !in EVENTS_PATH;
    assert '#' !in query by {
      assert forall k :: 0 <= k < |query| ==> query[k] == '=' || 'a' <= query[k] <= 'z';
    }
    QueryOfPathQuery(EVENTS_PATH, query);
    assert IsWord("type");
    ParseWordPair("type", value, decode);
  }

  /** An events link is active exactly on an events page of its own type. */
  lemma EventsLinkActive(value: string, pathname: string, pageType: Option<string>, decode: string -> string)
    requires IsWord(value) && KeepsWords(decode)
    ensures IsLinkActive(EVENTS_PATH + "?type=" + value, pathname, ResolveType(pageType), decode)
        <==> StartsWith(pathname, EVENTS_PATH) && ResolveType(Some(value)) == ResolveType(pageType)
  {
    EventsLinkType(value, decode);
    var href := EVENTS_PATH + "?type=" + value;
    assert href[..|EVENTS_PATH|] == EVENTS_PATH;
  }

  /** Each header link's activity, written out: Films on an events page
      that is not for shows, Spectacles on one that is, Cinéma under
      "/cinema", and the "#" links never. */
  lemma NavLinksActive(pathname: string, pageType: Option<string>, decode: string -> string)
    requires KeepsWords(decode)
    ensures IsLinkActive(NAV_LINKS[0].href, pathname, ResolveType(pageType), decode)
        <==> StartsWith(pathname, EVENTS_PATH) && pageType != Some("show")
    ensures IsLinkActive(NAV_LINKS[1].href, pathname, ResolveType(pageType), decode)
        <==> StartsWith(pathname, EVENTS_PATH) && pageType == Some("show")
    ensures IsLinkActive(NAV_LINKS[2].href, pathname, ResolveType(pageType), decode)
        <==> StartsWith(pathname, CINEMA_PATH)
    ensures !IsLinkActive(NAV_LINKS[3].href, pathname, ResolveType(pageType), decode)
    ensures !IsLinkActive(NAV_LINKS[4].href, pathname, ResolveType(pageType), decode)
  {
    assert NAV_LINKS[0].href == EVENTS_PATH + "?type=" + "movie";
    assert IsWord("movie");
    EventsLinkActive("movie", pathname, pageType, decode);
    assert NAV_LINKS[1].href == EVENTS_PATH + "?type=" + "show";
    assert IsWord("show");
    EventsLinkActive("show", pathname, pageType, decode);
    assert !StartsWith(CINEMA_PATH, EVENTS_PATH) by {
      assert CINEMA_PATH[1] != EVENTS_PATH[1];
    }
  }

  /** At most one header link is highlighted, whatever the page: in
      particular Films and Spectacles are never both active. */
  lemma AtMostOneActive(pathname: string, pageType: Option<string>, decode: string -> string, i: int, j: int)
    requires KeepsWords(decode)
    requires 0 <= i < j < |NAV_LINKS|
    ensures !(IsLinkActive(NAV_LINKS[i].href, pathname, ResolveType(pageType), decode)
              && IsLinkActive(NAV_LINKS[j].href, pathname, ResolveType(pageType), decode))
  {
    NavLinksActive(pathname, pageType, decode);
    PathsExclusive(pathname);
    assert i == 0 || i == 1 || i == 2 || i == 3;
    assert j == 1 || j == 2 || j == 3 || j == 4;
  }

  /** No path is both under "/evenements" and under "/cinema". */
  lemma PathsExclusive(pathname: string)
    ensures !(StartsWith(pathname, EVENTS_PATH) && StartsWith(pathname, CINEMA_PATH))
  {
    if StartsWith(pathname, EVENTS_PATH) {
      assert pathname[1] == EVENTS_PATH[1];
    }
  }
}
