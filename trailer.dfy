/** The trailer helpers shared, line for line, by the trailer modal button
    and the event page's trailer player: the start-time parser, the YouTube
    link reader, the video-file test and the choice of player.

    `new URL(url)` is the parameter `parse`: `None` when it throws, else the
    host name, the path and the decoded query pairs in order. */
module Trailer {
  import opened Wrappers
  import opened Strings
  import Json
  import opened UrlQuery

  datatype ParsedUrl = ParsedUrl(hostname: string, pathname: string, query: seq<(string, string)>)

  /** `a || b` on two results of `get`. */
  function OrParam(a: Option<string>, b: Option<string>): Option<string>
  {
    if a.Some? && a.value != "" then a else b
  }

  // ---------------------------------------------------------------------------
  // parseStartSeconds

  /** The length of the run of digits `s` starts with. */
  function DigitRun(s: string): (n: nat)
    ensures n <= |s| && AllDigits(s[..n])
    ensures n < |s| ==> !IsDigit(s[n])
  {
    if s == [] || !IsDigit(s[0]) then 0
    else
      var n := 1 + DigitRun(s[1..]);
      assert s[..n] == [s[0]] + s[1..][..n - 1];
      n
  }

  /** One optional group `(?:(\d+)u)?` matched at the front of `s`: the
      digits and the rest after the unit letter (either case), or 0 and `s`
      unchanged when the digits are not followed by the letter. */
  function ReadUnit(s: string, unit: char): (r: (nat, string))
    ensures |r.1| <= |s|
  {
    var n := DigitRun(s);
    if 0 < n < |s| && LowerChar(s[n]) == unit then (DigitsValue(s[..n]), s[n + 1..])
    else (0, s)
  }

  /** The regular expression `(?:(\d+)h)?(?:(\d+)m)?(?:(\d+)s)?` always
      matches at position 0, possibly empty; hours, minutes and seconds are
      read from the front in that order. */
  function HmsSeconds(s: string): nat
  {
    var (h, afterHours) := ReadUnit(s, 'h');
    var (m, afterMinutes) := ReadUnit(afterHours, 'm');
    var (sec, _) := ReadUnit(afterMinutes, 's');
    3600 * h + 60 * m + sec
  }

  /** `parseStartSeconds(value)`. */
  function ParseStartSeconds(value: Option<string>): (r: nat)
    ensures value.None? || Trim(value.value) == "" ==> r == 0
    ensures value.Some? && AllDigits(Trim(value.value)) ==> r == DigitsValue(Trim(value.value))
  {
    match value
    case None => 0
    case Some(v) =>
      var cleaned := Trim(v);
      if cleaned == "" then 0
      else if AllDigits(cleaned) then DigitsValue(cleaned)
      else HmsSeconds(cleaned)
  }

  /** A start time written "{h}h{m}m{s}s". */
  function HmsText(h: nat, m: nat, s: nat): string
  {
    NatToString(h) + "h" + NatToString(m) + "m" + NatToString(s) + "s"
  }

  /** A run of digits followed by a non-digit is read whole. */
  lemma {:induction false} DigitRunOf(d: string, rest: string)
    requires AllDigits(d)
    requires rest == [] || !IsDigit(rest[0])
    ensures DigitRun(d + rest) == |d|
  {
    if d != [] {
      assert (d + rest)[1..] == d[1..] + rest;
      DigitRunOf(d[1..], rest);
    }
  }

  lemma ReadUnitOf(n: nat, unit: char, rest: string)
    requires 'a' <= unit <= 'z'
    ensures ReadUnit(NatToString(n) + [unit] + rest, unit) == (n, rest)
  {
    var d := NatToString(n);
    var s := d + [unit] + rest;
    assert s == d + ([unit] + rest);
    DigitRunOf(d, [unit] + rest);
    assert s[..|d|] == d;
    assert s[|d|] == unit;
    assert s[|d| + 1..] == rest;
    NatToStringValue(n);
  }

  /** Text with no white space at either end is its own trim. */
  lemma HmsOfText(h: nat, m: nat, s: nat)
    ensures HmsSeconds(HmsText(h, m, s)) == 3600 * h + 60 * m + s
  {
    var hs, ms, ss := NatToString(h), NatToString(m), NatToString(s);
    assert HmsText(h, m, s) == hs + ['h'] + (ms + ['m'] + (ss + ['s'] + ""));
    ReadUnitOf(h, 'h', ms + ['m'] + (ss + ['s'] + ""));
    ReadUnitOf(m, 'm', ss + ['s'] + "");
    ReadUnitOf(s, 's', "");
  }

  /** What "{h}h{m}m{s}s" says is what the parser reads. */
  lemma ParseHmsText(h: nat, m: nat, s: nat)
    ensures ParseStartSeconds(Some(HmsText(h, m, s))) == 3600 * h + 60 * m + s
  {
    var text := HmsText(h, m, s);
    var hs := NatToString(h);
    assert text[0] == hs[0] && text[|hs|] == 'h' && text[|text| - 1] == 's';
    TrimFixed(text);
    assert !AllDigits(text) by {
      assert !IsDigit(text[|hs|]);
    }
    HmsOfText(h, m, s);
  }

  /** A bare number of seconds reads as itself. */
  lemma ParseSecondsText(n: nat)
    ensures ParseStartSeconds(Some(NatToString(n))) == n
  {
    Json.TrimOfDigits(NatToString(n));
    NatToStringValue(n);
  }

  /** Text that is not a bare number is read as hours, minutes, seconds. */
  lemma ParseAsHms(v: string)
    requires Trim(v) == v && v != "" && !AllDigits(v)
    ensures ParseStartSeconds(Some(v)) == HmsSeconds(v)
  {
  }

  lemma ReadOneMinute()
    ensures ReadUnit("1m30", 'h') == (0, "1m30")
    ensures ReadUnit("1m30", 'm') == (1, "30")
  {
    var text := "1m30";
    assert DigitRun(text) == 1 by { assert DigitRun(text[1..]) == 0; }
    assert text[..1] == "1" && text[2..] == "30";
    assert DigitsValue("1") == 1;
  }

  lemma ReadNoSeconds()
    ensures ReadUnit("30", 's') == (0, "30")
  {
    assert DigitRun("30") == 2 by { assert DigitRun("0") == 1 by { assert DigitRun("") == 0; } }
  }

  /** Minutes without their "s" still count: "1m30" is one minute. */
  lemma ParseMinutesOnly()
    ensures ParseStartSeconds(Some("1m30")) == 60
  {
    var text := "1m30";
    assert Trim(text) == text by { TrimFixed(text); }
    assert !AllDigits(text) by { assert !IsDigit(text[1]); }
    assert HmsSeconds(text) == 60 by {
      ReadOneMinute();
      ReadNoSeconds();
    }
    ParseAsHms(text);
  }

  /** Text that does not start with a digit group reads as 0. */
  lemma ParseNoDigits()
    ensures ParseStartSeconds(Some("abc")) == 0
  {
    var text := "abc";
    assert Trim(text) == text by { TrimFixed(text); }
    assert !AllDigits(text) by { assert !IsDigit(text[0]); }
    assert HmsSeconds(text) == 0 by { assert DigitRun(text) == 0; }
    ParseAsHms(text);
  }

  // ---------------------------------------------------------------------------
  // getYouTubeMeta

  /** `{ id, start }`; the id is `null` when a watch link has no `v`. */
  datatype YouTubeMeta = YouTubeMeta(id: Option<string>, start: nat)

  /** The reading of a parsed link: short links take the path without its
      first "/", embed links the path after "/embed/", other youtube.com
      links the `v` parameter; any other host gives `null`. Short and watch
      links read the start from `t`, then `start`; embed links from `start`,
      then `t`. */
  function MetaOf(u: ParsedUrl): (r: Option<YouTubeMeta>)
    ensures r.Some? <==> Contains(u.hostname, "youtu.be") || Contains(u.hostname, "youtube.com")
  {
    if Contains(u.hostname, "youtu.be") then
      Some(YouTubeMeta(Some(ReplaceFirst(u.pathname, "/", "")),
        ParseStartSeconds(OrParam(Param(u.query, "t"), Param(u.query, "start")))))
    else if Contains(u.hostname, "youtube.com") then
      if StartsWith(u.pathname, "/embed/") then
        Some(YouTubeMeta(Some(ReplaceFirst(u.pathname, "/embed/", "")),
          ParseStartSeconds(OrParam(Param(u.query, "start"), Param(u.query, "t")))))
      else
        Some(YouTubeMeta(Param(u.query, "v"),
          ParseStartSeconds(OrParam(Param(u.query, "t"), Param(u.query, "start")))))
    else None
  }

  /** `getYouTubeMeta(url)`: `null` when the link does not parse. */
  function GetYouTubeMeta(url: string, parse: string -> Option<ParsedUrl>): (r: Option<YouTubeMeta>)
    ensures parse(url).None? ==> r.None?
    ensures parse(url).Some? ==> r == MetaOf(parse(url).value)
  {
    match parse(url)
    case None => None
    case Some(u) => MetaOf(u)
  }

  const SHORT_HOST: string := "youtu.be"
  const SITE_HOST: string := "www.youtube.com"

  lemma ShortHost(host: string)
    requires host == SHORT_HOST
    ensures Contains(host, "youtu.be")
  {
    assert OccursAt(host, "youtu.be", 0);
    ContainsAt(host, "youtu.be");
  }

  /** The site's own host is a youtube.com host and not a short one. */
  lemma SiteHost(host: string)
    requires host == SITE_HOST
    ensures Contains(host, "youtube.com")
    ensures !Contains(host, "youtu.be")
  {
    assert OccursAt(host, "youtube.com", 4);
    ContainsAt(host, "youtube.com");
    SiteHostNotShort(host);
  }

  lemma SiteHostNotShort(host: string)
    requires host == SITE_HOST
    ensures !Contains(host, "youtu.be")
  {
    ContainsAt(host, "youtu.be");
    forall i | OccursAt(host, "youtu.be", i)
      ensures false
    {
      OccursLetter(host, "youtu.be", i, 0);
      OccursLetter(host, "youtu.be", i, 5);
      SiteHostLetters(host, i);
    }
  }

  /** No "y" of the site's host is followed, five places on, by a ".". */
  lemma SiteHostLetters(host: string, i: int)
    requires host == SITE_HOST && 0 <= i <= |host| - 8
    ensures host[i] != 'y' || host[i + 5] != '.'
  {
    if i < 4 {
      assert i == 0 || i == 1 || i == 2 || i == 3;
    } else if i > 4 {
      assert i == 5 || i == 6 || i == 7;
    }
  }

  /** With both `t` and `start` given, short and watch links use `t` and
      embed links use `start`. */
  lemma StartPrecedence(u: ParsedUrl, t: string, start: string)
    requires t != "" && start != "" && u.query == [("t", t), ("start", start)]
    ensures Contains(u.hostname, "youtu.be") ==> MetaOf(u).value.start == ParseStartSeconds(Some(t))
    ensures !Contains(u.hostname, "youtu.be") && Contains(u.hostname, "youtube.com") ==>
              MetaOf(u).value.start == if StartsWith(u.pathname, "/embed/") then ParseStartSeconds(Some(start))
                                       else ParseStartSeconds(Some(t))
  {
    assert u.query[1..] == [("start", start)];
    assert Param(u.query, "t") == Some(t);
    assert Param(u.query, "start") == Some(start) by {
      assert "t" != "start";
    }
    assert OrParam(Param(u.query, "t"), Param(u.query, "start")) == Some(t);
    assert OrParam(Param(u.query, "start"), Param(u.query, "t")) == Some(start);
  }

  /** A short link names the path without its leading "/"; its start is
      read from a non-empty `t`, else from `start`. */
  lemma ShortLinkMeta(u: ParsedUrl)
    requires Contains(u.hostname, "youtu.be") && StartsWith(u.pathname, "/")
    ensures MetaOf(u).value.id == Some(u.pathname[1..])
    ensures Param(u.query, "t").Some? && Param(u.query, "t").value != "" ==>
              MetaOf(u).value.start == ParseStartSeconds(Param(u.query, "t"))
    ensures !(Param(u.query, "t").Some? && Param(u.query, "t").value != "") ==>
              MetaOf(u).value.start == ParseStartSeconds(Param(u.query, "start"))
  {
    ReplaceFirstPrefix(u.pathname, "/");
  }

  /** A youtube.com link other than an embed names its `v` parameter, or
      `null` without one; its start is read from `t`, then `start`. */
  lemma WatchLinkMeta(u: ParsedUrl)
    requires Contains(u.hostname, "youtube.com") && !Contains(u.hostname, "youtu.be")
    requires !StartsWith(u.pathname, "/embed/")
    ensures MetaOf(u).value.id == Param(u.query, "v")
    ensures Param(u.query, "v").None? ==> MetaOf(u).value.id.None?
    ensures Param(u.query, "t").Some? && Param(u.query, "t").value != "" ==>
              MetaOf(u).value.start == ParseStartSeconds(Param(u.query, "t"))
    ensures !(Param(u.query, "t").Some? && Param(u.query, "t").value != "") ==>
              MetaOf(u).value.start == ParseStartSeconds(Param(u.query, "start"))
  {
  }

  /** An embed link names the path after "/embed/"; its start is read from
      a non-empty `start`, else from `t`. */
  lemma EmbedLinkMeta(u: ParsedUrl)
    requires Contains(u.hostname, "youtube.com") && !Contains(u.hostname, "youtu.be")
    requires StartsWith(u.pathname, "/embed/")
    ensures MetaOf(u).value.id == Some(u.pathname[|"/embed/"|..])
    ensures Param(u.query, "start").Some? && Param(u.query, "start").value != "" ==>
              MetaOf(u).value.start == ParseStartSeconds(Param(u.query, "start"))
    ensures !(Param(u.query, "start").Some? && Param(u.query, "start").value != "") ==>
              MetaOf(u).value.start == ParseStartSeconds(Param(u.query, "t"))
  {
    ReplaceFirstPrefix(u.pathname, "/embed/");
  }

  /** `https://youtu.be/{id}?t={start}` reads back as that id and start. */
  lemma ShortLinkRoundTrip(host: string, id: string, start: nat)
    requires Contains(host, "youtu.be")
    ensures MetaOf(ParsedUrl(host, "/" + id, [("t", NatToString(start))])) == Some(YouTubeMeta(Some(id), start))
  {
    var u := ParsedUrl(host, "/" + id, [("t", NatToString(start))]);
    assert StartsWith(u.pathname, "/");
    ShortLinkMeta(u);
    assert u.pathname[1..] == id;
    assert Param(u.query, "t") == Some(NatToString(start));
    ParseSecondsText(start);
  }

  /** `https://www.youtube.com/watch?v={id}&t={start}` reads back as that
      id and start. */
  lemma WatchLinkRoundTrip(host: string, id: string, start: nat)
    requires Contains(host, "youtube.com") && !Contains(host, "youtu.be")
    ensures MetaOf(ParsedUrl(host, "/watch", [("v", id), ("t", NatToString(start))])) == Some(YouTubeMeta(Some(id), start))
  {
    var u := ParsedUrl(host, "/watch", [("v", id), ("t", NatToString(start))]);
    assert !StartsWith(u.pathname, "/embed/") by { assert u.pathname[1] != "/embed/"[1]; }
    WatchLinkMeta(u);
    assert Param(u.query, "v") == Some(id);
    assert u.query[1..] == [("t", NatToString(start))];
    assert Param(u.query, "t") == Some(NatToString(start)) by { assert "v" != "t"; }
    ParseSecondsText(start);
  }

  // ---------------------------------------------------------------------------
  // isVideoFile and the player

  const VIDEO_EXTENSIONS: seq<string> := ["mp4", "webm", "ogg", "mov", "m4v"]

  /** `.ext` at position `i`, in any case, then `?`, `#` or the end. */
  predicate ExtensionAt(url: string, i: nat, ext: string)
  {
    i + 1 + |ext| <= |url| && url[i] == '.' && Lower(url[i + 1..i + 1 + |ext|]) == ext
    && (i + 1 + |ext| == |url| || url[i + 1 + |ext|] == '?' || url[i + 1 + |ext|] == '#')
  }

  /** `/\.(mp4|webm|ogg|mov|m4v)(\?|#|$)/i.test(url)`. */
  predicate IsVideoFile(url: string)
  {
    exists ext, i: nat :: ext in VIDEO_EXTENSIONS && i < |url| && ExtensionAt(url, i, ext)
  }

  /** A link ending in a video extension, in any case, is a video file. */
  lemma VideoSuffix(base: string, ext: string)
    requires ext in VIDEO_EXTENSIONS
    ensures IsVideoFile(base + "." + ext)
    ensures IsVideoFile(base + "." + ext + "?autoplay=1")
  {
    var url := base + "." + ext;
    assert Lower(ext) == ext;
    assert url[|base| + 1..|base| + 1 + |ext|] == ext;
    assert ExtensionAt(url, |base|, ext);
    var withQuery := url + "?autoplay=1";
    assert withQuery[|base| + 1..|base| + 1 + |ext|] == ext;
    assert ExtensionAt(withQuery, |base|, ext);
  }

  datatype VideoKind = NoVideo | YouTube | Video | Frame

  datatype VideoConfig = VideoConfig(kind: VideoKind, src: string)

  /** `trailerLink?.trim() || ""`. */
  function TrimmedLink(trailerLink: Option<string>): string
  {
    match trailerLink case Some(s) => Trim(s) case None => ""
  }

  predicate HasTrailer(trailerLink: Option<string>)
  {
    TrimmedLink(trailerLink) != ""
  }

  const EMBED_BASE: string := "https://www.youtube.com/embed/"

  /** The embed address: `autoplay=1&rel=0`, then `start` only when it is
      not 0. */
  function EmbedSrc(id: string, start: nat): string
  {
    EMBED_BASE + id + "?autoplay=1&rel=0"
    + (if start != 0 then "&start=" + NatToString(start) else "")
  }

  /** The YouTube id a link names, when it names a non-empty one. */
  function YouTubeId(link: string, parse: string -> Option<ParsedUrl>): Option<string>
  {
    match GetYouTubeMeta(link, parse)
    case Some(YouTubeMeta(Some(id), _)) => if id != "" then Some(id) else None
    case _ => None
  }

  /** `videoConfig`: nothing without a link; a YouTube embed when the link
      names a video id; the link itself in a video element when it is a
      video file, else in a frame. */
  function VideoConfigOf(trailerLink: Option<string>, parse: string -> Option<ParsedUrl>): (r: VideoConfig)
    ensures r.kind == NoVideo <==> !HasTrailer(trailerLink)
    ensures r.kind == NoVideo ==> r.src == ""
    ensures r.kind == YouTube <==> HasTrailer(trailerLink) && YouTubeId(TrimmedLink(trailerLink), parse).Some?
    ensures r.kind == Video <==>
              HasTrailer(trailerLink) && YouTubeId(TrimmedLink(trailerLink), parse).None? && IsVideoFile(TrimmedLink(trailerLink))
    ensures r.kind == Video || r.kind == Frame ==> r.src == TrimmedLink(trailerLink)
    ensures r.kind == YouTube ==>
              r.src == EmbedSrc(YouTubeId(TrimmedLink(trailerLink), parse).value,
                                GetYouTubeMeta(TrimmedLink(trailerLink), parse).value.start)
  {
    var link := TrimmedLink(trailerLink);
    if link == "" then VideoConfig(NoVideo, "")
    else
      var meta := GetYouTubeMeta(link, parse);
      match YouTubeId(link, parse)
      case Some(id) => VideoConfig(YouTube, EmbedSrc(id, meta.value.start))
      case None => if IsVideoFile(link) then VideoConfig(Video, link) else VideoConfig(Frame, link)
  }

  /** The query of the embed address: `autoplay`, `rel`, then `start` when
      it is not 0. */
  function EmbedParams(start: nat): seq<(string, string)>
  {
    [("autoplay", "1"), ("rel", "0")] + (if start != 0 then [("start", NatToString(start))] else [])
  }

  lemma EmbedQuery(start: nat)
    ensures Param(EmbedParams(start), "t").None?
    ensures start != 0 ==> Param(EmbedParams(start), "start") == Some(NatToString(start))
    ensures start == 0 ==> Param(EmbedParams(start), "start").None?
  {
    var q := EmbedParams(start);
    assert q[0].0 == "autoplay" && q[1].0 == "rel";
    if start != 0 {
      assert q[2] == ("start", NatToString(start)) && |q| == 3;
    } else {
      assert |q| == 2;
    }
  }

  /** Reading an embed address back, on any youtube.com host that is not a
      short one (the site's own host is one, by `SiteHost`), gives the id
      and start it was built from. */
  lemma EmbedRoundTrip(host: string, id: string, start: nat)
    requires Contains(host, "youtube.com") && !Contains(host, "youtu.be")
    ensures MetaOf(ParsedUrl(host, "/embed/" + id, EmbedParams(start))) == Some(YouTubeMeta(Some(id), start))
  {
    var path := "/embed/" + id;
    assert StartsWith(path, "/embed/");
    ReplaceFirstPrefix(path, "/embed/");
    assert path[|"/embed/"|..] == id;
    EmbedQuery(start);
    if start != 0 {
      ParseSecondsText(start);
    }
  }

  /** Lower-case letters and digits, which the form encoding leaves alone. */
  predicate IsPlain(s: string)
  {
    forall k :: 0 <= k < |s| ==> 'a' <= s[k] <= 'z' || IsDigit(s[k])
  }

  ghost predicate KeepsPlain(encode: string -> string)
  {
    forall s :: IsPlain(s) ==> encode(s) == s
  }

  /** The address is the embed path and `params.toString()` of the pairs
      `EmbedParams` lists. */
  lemma EmbedSrcSerialized(id: string, start: nat, encode: string -> string)
    requires KeepsPlain(encode)
    ensures EmbedSrc(id, start) == EMBED_BASE + id + "?" + Serialize(EmbedParams(start), encode)
  {
    EmbedPairsPlain(start, encode);
    var parts := EncodedPairs(EmbedParams(start), encode);
    if start != 0 {
      var n := NatToString(start);
      assert parts[1..] == ["rel=0", "start=" + n];
      assert parts[1..][1..] == ["start=" + n];
      assert Join(parts[1..], "&") == "rel=0" + "&" + ("start=" + n);
      assert Join(parts, "&") == "autoplay=1" + "&" + ("rel=0" + "&" + ("start=" + n));
      assert "autoplay=1" + "&" + "rel=0" == "autoplay=1&rel=0";
      assert "&" + "start=" == "&start=";
    } else {
      assert parts[1..] == ["rel=0"];
      assert Join(parts, "&") == "autoplay=1&rel=0";
    }
  }

  /** The encoding leaves every name and value of `EmbedParams` as it is. */
  lemma EmbedPairsPlain(start: nat, encode: string -> string)
    requires KeepsPlain(encode)
    ensures EncodedPairs(EmbedParams(start), encode)
         == ["autoplay=1", "rel=0"] + (if start != 0 then ["start=" + NatToString(start)] else [])
  {
    assert IsPlain("autoplay") && IsPlain("1") && IsPlain("rel") && IsPlain("0") && IsPlain("start");
    var ps := EmbedParams(start);
    var parts := EncodedPairs(ps, encode);
    assert parts[0] == "autoplay=1";
    assert parts[1..] == EncodedPairs(ps[1..], encode);
    assert parts[1] == "rel=0";
    assert parts[2..] == EncodedPairs(ps[2..], encode);
    if start != 0 {
      var n := NatToString(start);
      assert IsPlain(n);
      assert ps[2..] == [("start", n)];
      assert parts[2] == "start=" + n;
    } else {
      assert ps[2..] == [];
    }
  }

  /** A YouTube video id: letters, digits, "_" and "-". */
  predicate IsVideoId(id: string)
  {
    forall k :: 0 <= k < |id| ==> 'a' <= id[k] <= 'z' || 'A' <= id[k] <= 'Z' || IsDigit(id[k]) || id[k] == '_' || id[k] == '-'
  }

  function EmbedAddress(id: string, query: string): string
  {
    EMBED_BASE + id + "?" + query
  }

  /** What the address parser is asked to do with an embed address: the
      site's host, the embed path and the query's pairs. */
  ghost predicate ReadsEmbedAddress(parse: string -> Option<ParsedUrl>, decode: string -> string)
  {
    forall id, query {:trigger parse(EmbedAddress(id, query))} :: IsVideoId(id) && '#' !in query ==>
      parse(EmbedAddress(id, query)) == Some(ParsedUrl(SITE_HOST, "/embed/" + id, ParseQuery(query, decode)))
  }

  /** The embed address the player is given reads back as the id and start
      it was built from. */
  lemma EmbedSrcRoundTrip(id: string, start: nat, parse: string -> Option<ParsedUrl>,
                          encode: string -> string, decode: string -> string)
    requires IsVideoId(id) && FormCodec(encode, decode) && KeepsPlain(encode)
    requires ReadsEmbedAddress(parse, decode)
    ensures GetYouTubeMeta(EmbedSrc(id, start), parse) == Some(YouTubeMeta(Some(id), start))
  {
    var query := Serialize(EmbedParams(start), encode);
    EmbedSrcSerialized(id, start, encode);
    assert EmbedSrc(id, start) == EmbedAddress(id, query);
    SerializeNoHash(EmbedParams(start), encode, decode);
    ParseSerialize(EmbedParams(start), encode, decode);
    assert parse(EmbedAddress(id, query)) == Some(ParsedUrl(SITE_HOST, "/embed/" + id, EmbedParams(start)));
    SiteHost(SITE_HOST);
    EmbedRoundTrip(SITE_HOST, id, start);
  }

  /** The YouTube player plays the id and start the trailer link names. */
  lemma YouTubeConfigReadsBack(trailerLink: Option<string>, parse: string -> Option<ParsedUrl>,
                               encode: string -> string, decode: string -> string)
    requires FormCodec(encode, decode) && KeepsPlain(encode) && ReadsEmbedAddress(parse, decode)
    requires VideoConfigOf(trailerLink, parse).kind == YouTube
    requires IsVideoId(YouTubeId(TrimmedLink(trailerLink), parse).value)
    ensures GetYouTubeMeta(VideoConfigOf(trailerLink, parse).src, parse)
         == Some(YouTubeMeta(Some(YouTubeId(TrimmedLink(trailerLink), parse).value),
                             GetYouTubeMeta(TrimmedLink(trailerLink), parse).value.start))
  {
    var link := TrimmedLink(trailerLink);
    EmbedSrcRoundTrip(YouTubeId(link, parse).value, GetYouTubeMeta(link, parse).value.start, parse, encode, decode);
  }

  // ---------------------------------------------------------------------------
  // Opening the modal, playing in place

  /** The modal button's click, `hasTrailer && setIsOpen(true)`. */
  function OpenClick(isOpen: bool, trailerLink: Option<string>): (r: bool)
    ensures r <==> isOpen || HasTrailer(trailerLink)
  {
    if HasTrailer(trailerLink) then true else isOpen
  }

  /** The player of the event page: its button is disabled without a
      trailer, so a click then changes nothing. */
  function PlayClick(isPlaying: bool, trailerLink: Option<string>): (r: bool)
    ensures r <==> isPlaying || HasTrailer(trailerLink)
  {
    var disabled := !HasTrailer(trailerLink);
    if disabled then isPlaying else true
  }

  /** The modal or the player shows only when open and there is a video. */
  predicate Shown(isOpen: bool, config: VideoConfig)
  {
    isOpen && config.kind != NoVideo
  }

  /** Without a trailer nothing ever shows, and from closed a click keeps it
      closed. */
  lemma NoTrailerNeverShown(isOpen: bool, trailerLink: Option<string>, parse: string -> Option<ParsedUrl>)
    requires !HasTrailer(trailerLink)
    ensures !Shown(isOpen, VideoConfigOf(trailerLink, parse))
    ensures !OpenClick(false, trailerLink) && !PlayClick(false, trailerLink)
  {
  }

  /** With a trailer one click shows it. */
  lemma TrailerShownAfterClick(trailerLink: Option<string>, parse: string -> Option<ParsedUrl>)
    requires HasTrailer(trailerLink)
    ensures Shown(OpenClick(false, trailerLink), VideoConfigOf(trailerLink, parse))
    ensures Shown(PlayClick(false, trailerLink), VideoConfigOf(trailerLink, parse))
  {
  }
}
