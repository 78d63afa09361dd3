/** Query strings as `URLSearchParams` writes and reads them: pairs joined
    by "&", each `name=value` with both sides form-encoded.

    The form encoding itself (`encode`, and its inverse `decode`) is a
    parameter; what the round trip needs of it is `FormCodec`. */
module UrlQuery {
  import opened Wrappers
  import opened Strings

  /** The pairs of a query, in order; a name may repeat. */
  type Params = seq<(string, string)>

  /** `searchParams.get(key)`: the first value under `key`, or `null`. */
  function Param(query: Params, key: string): (r: Option<string>)
    ensures r.Some? ==> exists i :: 0 <= i < |query| && query[i] == (key, r.value)
    ensures r.None? <==> forall i :: 0 <= i < |query| ==> query[i].0 != key
  {
    if query == [] then None
    else if query[0].0 == key then Some(query[0].1)
    else Param(query[1..], key)
  }

  /** What the round trip asks of the form encoding: decoding undoes it, and
      no encoded text holds "&", "=" or "#" (the
      application/x-www-form-urlencoded serializer of the WHATWG URL Standard
      percent-encodes all three). */
  ghost predicate FormCodec(encode: string -> string, decode: string -> string)
  {
    forall s :: decode(encode(s)) == s && '&' !in encode(s) && '=' !in encode(s) && '#' !in encode(s)
  }

  /** What the decoding does to a word of lower-case ASCII letters: nothing. */
  ghost predicate KeepsWords(decode: string -> string)
  {
    forall s :: IsWord(s) ==> decode(s) == s
  }

  predicate IsWord(s: string)
  {
    forall k :: 0 <= k < |s| ==> 'a' <= s[k] <= 'z'
  }

  function EncodePair(p: (string, string), encode: string -> string): string
  {
    encode(p.0) + "=" + encode(p.1)
  }

  function EncodedPairs(params: Params, encode: string -> string): (r: seq<string>)
    ensures |r| == |params|
  {
    if params == [] then [] else [EncodePair(params[0], encode)] + EncodedPairs(params[1..], encode)
  }

  /** `params.toString()`: "" exactly when there are no pairs. */
  function Serialize(params: Params, encode: string -> string): (r: string)
    ensures r == "" <==> params == []
  {
    var parts := EncodedPairs(params, encode);
    if |parts| > 1 then
      assert Join(parts, "&") == parts[0] + "&" + Join(parts[1..], "&");
      Join(parts, "&")
    else
      Join(parts, "&")
  }

  /** One piece read back: the name before the first "=" and the value after
      it, or the whole piece as a name with an empty value. */
  function DecodePair(part: string, decode: string -> string): (string, string)
  {
    match IndexOf(part, "=")
    case Some(i) => (decode(part[..i]), decode(part[i + 1..]))
    case None => (decode(part), "")
  }

  /** The pieces in order, empty ones skipped. */
  function DecodeParts(parts: seq<string>, decode: string -> string): Params
  {
    if parts == [] then []
    else if parts[0] == "" then DecodeParts(parts[1..], decode)
    else [DecodePair(parts[0], decode)] + DecodeParts(parts[1..], decode)
  }

  /** `new URLSearchParams(query)` for a query without its "?". */
  function ParseQuery(query: string, decode: string -> string): Params
  {
    DecodeParts(Split(query, '&'), decode)
  }

  lemma DecodeEncodePair(p: (string, string), encode: string -> string, decode: string -> string)
    requires FormCodec(encode, decode)
    ensures DecodePair(EncodePair(p, encode), decode) == p
  {
    var a, b := encode(p.0), encode(p.1);
    IndexOfFirst(a, '=', b);
    assert (a + "=" + b)[..|a|] == a;
    assert (a + "=" + b)[|a| + 1..] == b;
  }

  /** Pieces free of the separator split back apart. */
  lemma {:induction false} SplitJoined(parts: seq<string>, c: char)
    requires parts != []
    requires forall k :: 0 <= k < |parts| ==> c !in parts[k]
    ensures Split(Join(parts, [c]), c) == parts
    decreases |parts|
  {
    if |parts| == 1 {
      SplitNone(parts[0], c);
    } else {
      SplitJoined(parts[1..], c);
      SplitFront(parts[0], Join(parts[1..], [c]), c);
      assert parts == [parts[0]] + parts[1..];
    }
  }

  lemma {:induction false} DecodeEncodedPairs(params: Params, encode: string -> string, decode: string -> string)
    requires FormCodec(encode, decode)
    ensures DecodeParts(EncodedPairs(params, encode), decode) == params
    decreases |params|
  {
    if params != [] {
      var parts := EncodedPairs(params, encode);
      assert parts[1..] == EncodedPairs(params[1..], encode);
      assert parts[0] != "";
      DecodeEncodePair(params[0], encode, decode);
      DecodeEncodedPairs(params[1..], encode, decode);
    }
  }

  /** Reading a written query gives back its pairs, in order. */
  lemma ParseSerialize(params: Params, encode: string -> string, decode: string -> string)
    requires FormCodec(encode, decode)
    ensures ParseQuery(Serialize(params, encode), decode) == params
  {
    var parts := EncodedPairs(params, encode);
    if params == [] {
      assert Split("", '&') == [""];
    } else {
      forall k | 0 <= k < |parts|
        ensures '&' !in parts[k]
      {
        EncodedPairsFree(params, encode, k, '&');
      }
      SplitJoined(parts, '&');
      DecodeEncodedPairs(params, encode, decode);
    }
  }

  lemma {:induction false} EncodedPairsFree(params: Params, encode: string -> string, k: nat, c: char)
    requires k < |params| && c != '='
    requires forall s :: c !in encode(s)
    ensures c !in EncodedPairs(params, encode)[k]
    decreases k
  {
    if k > 0 {
      EncodedPairsFree(params[1..], encode, k - 1, c);
    } else {
      assert c !in encode(params[0].0) && c !in encode(params[0].1);
    }
  }

  /** A written query holds no "#", so nothing of it is taken for a
      fragment. */
  lemma SerializeNoHash(params: Params, encode: string -> string, decode: string -> string)
    requires FormCodec(encode, decode)
    ensures '#' !in Serialize(params, encode)
  {
    var parts := EncodedPairs(params, encode);
    forall k | 0 <= k < |parts|
      ensures '#' !in parts[k]
    {
      EncodedPairsFree(params, encode, k, '#');
    }
    JoinFree(parts, "&", '#');
  }

  /** A query of one `name=value` pair of plain words reads as that pair. */
  lemma ParseWordPair(name: string, value: string, decode: string -> string)
    requires IsWord(name) && IsWord(value) && KeepsWords(decode)
    ensures ParseQuery(name + "=" + value, decode) == [(name, value)]
  {
    var query := name + "=" + value;
    assert query == name + ['='] + value;
    assert '&' !in query by {
      assert forall k :: 0 <= k < |query| ==> query[k] == '=' || 'a' <= query[k] <= 'z';
    }
    SplitNone(query, '&');
    assert '=' !in name;
    IndexOfFirst(name, '=', value);
    assert query[..|name|] == name && query[|name| + 1..] == value;
    assert DecodePair(query, decode) == (name, value);
    assert DecodeParts([query], decode) == [DecodePair(query, decode)] + DecodeParts([], decode);
  }

  // ---------------------------------------------------------------------------
  // The query of a link

  /** A link without its fragment: everything before the first "#". */
  function BeforeHash(href: string): string
  {
    match IndexOf(href, "#")
    case Some(j) => href[..j]
    case None => href
  }

  /** The query of a link as `new URL(href, base).search` finds it: after
      the first "?" that comes before any "#", and "" when there is none. */
  function QueryOf(href: string): string
  {
    var base := BeforeHash(href);
    match IndexOf(base, "?")
    case Some(i) => base[i + 1..]
    case None => ""
  }

  lemma QueryOfPath(path: string)
    requires '?' !in path && '#' !in path
    ensures QueryOf(path) == ""
  {
    IndexOfAbsent(path, '#');
    IndexOfAbsent(path, '?');
  }

  lemma QueryOfPathQuery(path: string, query: string)
    requires '?' !in path && '#' !in path && '#' !in query
    ensures QueryOf(path + "?" + query) == query
  {
    var href := path + "?" + query;
    assert href == path + ['?'] + query;
    assert '#' !in href;
    IndexOfAbsent(href, '#');
    IndexOfFirst(path, '?', query);
  }
}
