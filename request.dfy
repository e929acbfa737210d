/** The request builder: the JSONP request URL for an endpoint, addressed
    either by content identifier or by source URL, and the thumbnail request
    form of a source URL. Each builder has a parser beside it, and the
    round-trip lemmas show what a server reading the URL recovers. */
module Request {
  import opened Wrappers
  import opened Js
  import opened Uri

  /** The two API resources the library requests. */
  datatype Endpoint = ContentEndpoint | DziEndpoint

  function TypeName(e: Endpoint): string {
    match e
    case ContentEndpoint => "content"
    case DziEndpoint => "dzi"
  }

  /** `apiPath + "v1/" + type + "/"`: the resource path both URL forms share. */
  function ResourcePath(apiPath: string, typeName: string): string {
    apiPath + "v1/" + typeName + "/"
  }

  /** `makeApiUrlById`: the identifier is embedded as it is, NOT encoded; only
      the callback name is. */
  function ApiUrlById(apiPath: string, typeName: string, id: string, callbackName: string): string {
    ResourcePath(apiPath, typeName) + id + "?callback=" + Encode(callbackName)
  }

  /** `makeApiUrlByUrl`: both the callback name and the source URL are encoded. */
  function ApiUrlByUrl(apiPath: string, typeName: string, url: string, callbackName: string): string {
    ResourcePath(apiPath, typeName) + "?callback=" + Encode(callbackName) + "&url=" + Encode(url)
  }

  /** The request URL `makeApiRequest` builds: the by-identifier form when the
      identifier is truthy, else the by-URL form over `String(url)` (an absent
      url is sent as the text "undefined"). */
  function RequestUrl(apiPath: string, endpoint: Endpoint, id: Option<string>, url: Option<string>, callbackName: string): string {
    if Truthy(id) then ApiUrlById(apiPath, TypeName(endpoint), id.value, callbackName)
    else ApiUrlByUrl(apiPath, TypeName(endpoint), ToString(url), callbackName)
  }

  const ThumbnailPrefix: string := "zoomit://thumbnail/?url="

  /** `makeThumbnailUrl`: a falsy url is returned as it is. */
  function ThumbnailUrl(url: Option<string>): Option<string> {
    if Truthy(url) then Some(ThumbnailPrefix + Encode(url.value)) else url
  }

  // ---------------------------------------------------------------------
  // Reading a request URL back, as the service does

  predicate HasPrefix(s: string, p: string) {
    |p| <= |s| && s[..|p|] == p
  }

  /** The callback name and source URL of a by-URL request under `path`. */
  function ParseByUrl(path: string, u: string): Option<(string, string)> {
    var head := path + "?callback=";
    if !HasPrefix(u, head) then None
    else
      var rest := u[|head|..];
      match IndexOf(rest, "&")
      case None => None
      case Some(i) =>
        var tail := rest[i + 1..];
        if !HasPrefix(tail, "url=") then None
        else
          match (Decode(rest[..i]), Decode(tail[4..]))
          case (Some(name), Some(url)) => Some((name, url))
          case _ => None
  }

  /** The identifier (the path segment up to the first '?') and the callback
      name of a by-identifier request under `path`. */
  function ParseById(path: string, u: string): Option<(string, string)> {
    if !HasPrefix(u, path) then None
    else
      var rest := u[|path|..];
      match IndexOf(rest, "?")
      case None => None
      case Some(i) =>
        var tail := rest[i..];
        if !HasPrefix(tail, "?callback=") then None
        else
          match Decode(tail[10..])
          case Some(name) => Some((rest[..i], name))
          case None => None
  }

  /** The source URL inside a thumbnail request form. */
  function ParseThumbnailUrl(t: string): Option<string> {
    if HasPrefix(t, ThumbnailPrefix) then Decode(t[|ThumbnailPrefix|..]) else None
  }

  // ---------------------------------------------------------------------
  // Round trips

  /** The first occurrence of a one-character pattern is the first position
      holding that character. */
  lemma IndexOfChar(a: string, c: char, b: string)
    requires forall i :: 0 <= i < |a| ==> a[i] != c
    ensures IndexOf(a + [c] + b, [c]) == Some(|a|)
  {
    var s := a + [c] + b;
    assert OccursAt(s, [c], |a|) by { assert s[|a|..|a| + 1] == [c]; }
    forall j | 0 <= j < |a|
      ensures !OccursAt(s, [c], j)
    {
      assert s[j] == a[j];
    }
  }

  lemma EncodeAvoids(s: string, c: char)
    requires !UriSafe(c)
    ensures forall i :: 0 <= i < |Encode(s)| ==> Encode(s)[i] != c
  {
  }

  /** How a by-URL request splits, for an encoded name free of '&'. */
  lemma ParseByUrlParts(path: string, en: string, eu: string)
    requires forall i :: 0 <= i < |en| ==> en[i] != '&'
    ensures ParseByUrl(path, path + "?callback=" + en + "&url=" + eu) ==
      match (Decode(en), Decode(eu))
      case (Some(name), Some(url)) => Some((name, url))
      case _ => None
  {
    var u := path + "?callback=" + en + "&url=" + eu;
    var head := path + "?callback=";
    var rest := en + "&url=" + eu;
    assert u == head + rest;
    assert HasPrefix(u, head) && u[|head|..] == rest;
    assert rest == en + ['&'] + ("url=" + eu);
    IndexOfChar(en, '&', "url=" + eu);
    assert rest[..|en|] == en;
    assert rest[|en| + 1..] == "url=" + eu;
    assert ("url=" + eu)[4..] == eu;
  }

  /** A by-URL request gives back the callback name and the URL. */
  lemma ByUrlRoundTrip(apiPath: string, typeName: string, url: string, callbackName: string)
    ensures ParseByUrl(ResourcePath(apiPath, typeName), ApiUrlByUrl(apiPath, typeName, url, callbackName))
      == Some((callbackName, url))
  {
    EncodeAvoids(callbackName, '&');
    ParseByUrlParts(ResourcePath(apiPath, typeName), Encode(callbackName), Encode(url));
    DecodeEncode(callbackName);
    DecodeEncode(url);
  }

  /** How a by-identifier request splits, for an identifier free of '?'. */
  lemma ParseByIdParts(path: string, id: string, en: string)
    requires forall i :: 0 <= i < |id| ==> id[i] != '?'
    ensures ParseById(path, path + id + "?callback=" + en) ==
      match Decode(en)
      case Some(name) => Some((id, name))
      case None => None
  {
    var tail := "callback=" + en;
    var rest := id + ['?'] + tail;
    assert "?callback=" + en == ['?'] + tail;
    assert path + id + "?callback=" + en == path + rest;
    IndexOfChar(id, '?', tail);
    assert rest[..|id|] == id;
    assert rest[|id|..] == "?callback=" + en;
    assert ("?callback=" + en)[10..] == en;
  }

  /** A by-identifier request gives back the identifier and the callback
      name, provided the identifier holds no '?' (it is not encoded). */
  lemma ByIdRoundTrip(apiPath: string, typeName: string, id: string, callbackName: string)
    requires forall i :: 0 <= i < |id| ==> id[i] != '?'
    ensures ParseById(ResourcePath(apiPath, typeName), ApiUrlById(apiPath, typeName, id, callbackName))
      == Some((id, callbackName))
  {
    ParseByIdParts(ResourcePath(apiPath, typeName), id, Encode(callbackName));
    DecodeEncode(callbackName);
  }

  /** An identifier holding '?' is NOT recovered: the service reads only the
      part before the first '?' as the identifier. */
  lemma ByIdMisreadWithQuestionMark(apiPath: string, typeName: string, id: string, callbackName: string)
    requires exists i :: 0 <= i < |id| && id[i] == '?'
    ensures ParseById(ResourcePath(apiPath, typeName), ApiUrlById(apiPath, typeName, id, callbackName))
      != Some((id, callbackName))
  {
    var path := ResourcePath(apiPath, typeName);
    var rest := id + ("?callback=" + Encode(callbackName));
    assert ApiUrlById(apiPath, typeName, id, callbackName) == path + rest;
    ParseByIdIdentifier(path, rest);
    FirstQuestionMarkInside(id, "?callback=" + Encode(callbackName));
    var r := ParseById(path, path + rest);
    if r.Some? {
      var i := IndexOf(rest, "?").value;
      assert |r.value.0| == i < |id|;
    }
  }

  /** The identifier a by-identifier request yields is what precedes the
      first '?' after the resource path. */
  lemma ParseByIdIdentifier(path: string, rest: string)
    ensures ParseById(path, path + rest).Some? ==>
      IndexOf(rest, "?").Some? && ParseById(path, path + rest).value.0 == rest[..IndexOf(rest, "?").value]
  {
    assert (path + rest)[|path|..] == rest;
  }

  /** The first '?' of `id + t` lies inside `id` when `id` holds one. */
  lemma FirstQuestionMarkInside(id: string, t: string)
    requires exists i :: 0 <= i < |id| && id[i] == '?'
    ensures IndexOf(id + t, "?").Some? ==> IndexOf(id + t, "?").value < |id|
  {
    var rest := id + t;
    var k :| 0 <= k < |id| && id[k] == '?';
    assert OccursAt(rest, "?", k) by { assert rest[k..k + 1] == [id[k]]; }
  }

  /** A truthy url survives `makeThumbnailUrl`; a falsy one passes unchanged. */
  lemma ThumbnailUrlRoundTrip(url: Option<string>)
    ensures Truthy(url) ==> ThumbnailUrl(url).Some? && ParseThumbnailUrl(ThumbnailUrl(url).value) == Some(url.value)
    ensures !Truthy(url) ==> ThumbnailUrl(url) == url
  {
    if Truthy(url) {
      var t := ThumbnailPrefix + Encode(url.value);
      assert t[|ThumbnailPrefix|..] == Encode(url.value);
      DecodeEncode(url.value);
    }
  }

  /** What the service reads from `makeApiRequest`'s URL: the identifier when
      it is truthy (and holds no '?'), else `String(url)`; the callback name in
      both cases. */
  lemma RequestUrlRoundTrip(apiPath: string, endpoint: Endpoint, id: Option<string>, url: Option<string>, callbackName: string)
    ensures Truthy(id) && (forall i :: 0 <= i < |id.value| ==> id.value[i] != '?') ==>
      ParseById(ResourcePath(apiPath, TypeName(endpoint)), RequestUrl(apiPath, endpoint, id, url, callbackName))
        == Some((id.value, callbackName))
    ensures !Truthy(id) ==>
      ParseByUrl(ResourcePath(apiPath, TypeName(endpoint)), RequestUrl(apiPath, endpoint, id, url, callbackName))
        == Some((callbackName, ToString(url)))
  {
    if Truthy(id) {
      if forall i :: 0 <= i < |id.value| ==> id.value[i] != '?' {
        ByIdRoundTrip(apiPath, TypeName(endpoint), id.value, callbackName);
      }
    } else {
      ByUrlRoundTrip(apiPath, TypeName(endpoint), ToString(url), callbackName);
    }
  }

  /** A thumbnail request by source URL carries the thumbnail form of that
      URL as its `url` parameter, and the source URL is recovered from it by
      decoding twice. */
  lemma ThumbnailRequestRoundTrip(apiPath: string, id: Option<string>, url: Option<string>, callbackName: string)
    requires !Truthy(id) && Truthy(url)
    ensures ParseByUrl(ResourcePath(apiPath, "dzi"), RequestUrl(apiPath, DziEndpoint, id, ThumbnailUrl(url), callbackName))
      == Some((callbackName, ThumbnailPrefix + Encode(url.value)))
    ensures ParseThumbnailUrl(ThumbnailPrefix + Encode(url.value)) == Some(url.value)
  {
    RequestUrlRoundTrip(apiPath, DziEndpoint, id, ThumbnailUrl(url), callbackName);
    ThumbnailUrlRoundTrip(url);
  }
}
