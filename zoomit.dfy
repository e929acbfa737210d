/** The public methods `getContent`, `getDzi` and `getThumbnail`, as far as
    the response: each takes the caller's options and the parsed JSONP
    response and yields the one caller callback that runs, with the
    arguments it receives, or no call at all. A JavaScript TypeError raised
    while handling the response is an outcome of its own. */
module Zoomit {
  import opened Wrappers
  import opened Js
  import opened Dispatch
  import opened Request
  import opened Thumbnail

  /** The caller callbacks an options object may carry. */
  datatype Kind = Ready | Failed | Progress | Error | Down

  const AllKinds: set<Kind> := {Ready, Failed, Progress, Error, Down}

  /** Which object an options value is: the caller's own, or the one
      `getThumbnail` builds to pass to `getDzi`. */
  datatype Origin = Caller | ThumbnailRequest

  /** `opts`: the identifier, the source URL, and which callbacks are
      supplied (the callbacks are opaque; only their presence matters). */
  datatype Options = Options(id: Option<string>, url: Option<string>, handlers: set<Kind>, origin: Origin)

  /** `resp.content`: the `ready` and `failed` flags and the other fields. */
  datatype ContentInfo = ContentInfo(ready: bool, failed: bool, properties: map<string, string>)

  /** `resp.dzi`: its `url` and the other fields. */
  datatype DziInfo = DziInfo(url: Option<string>, properties: map<string, string>)

  /** The parsed JSONP response. `content` and `dzi` are `None` when absent;
      `retryAfter` is a number or absent. */
  datatype Response = Response(
    status: int,
    content: Option<ContentInfo>,
    dzi: Option<DziInfo>,
    error: Option<string>,
    retryAfter: Option<int>)

  /** The values a callback can be handed. */
  datatype Val =
    | Undefined
    | Text(text: string)
    | ContentVal(content: ContentInfo)
    | DziVal(dzi: DziInfo)
    | ThumbnailVal(tiles: map<nat, string>)
    | OptionsVal(options: Options)
    | ResponseVal(response: Response)

  /** What handling one response does: no caller callback runs, one runs with
      the given positional arguments, or a TypeError escapes. */
  datatype Outcome = NoCall | Invoke(kind: Kind, args: seq<Val>) | TypeError

  predicate IsTruthy(v: Val) {
    match v
    case Undefined => false
    case Text(t) => t != ""
    case _ => true
  }

  predicate RetryAfterTruthy(r: Option<int>) {
    r.Some? && r.value != 0
  }

  /** `resp.error` as a value. */
  function ErrorVal(e: Option<string>): Val {
    match e
    case None => Undefined
    case Some(t) => Text(t)
  }

  /** The i-th positional argument, `undefined` past the end. */
  function Arg(args: seq<Val>, i: nat): Val {
    if i < |args| then args[i] else Undefined
  }

  // ---------------------------------------------------------------------
  // The handler tables

  datatype ContentHandler = ContentLoaded | ContentBadRequest | ContentApiDown

  function ContentCallbacks(): map<string, ContentHandler> {
    map[Aggregate := ContentLoaded, "4xx" := ContentBadRequest, "5xx" := ContentApiDown]
  }

  datatype DziHandler = DziLoaded | DziNotFound | DziBadRequest | DziApiDown

  function DziCallbacks(): map<string, DziHandler> {
    map[Aggregate := DziLoaded, "404" := DziNotFound, "4xx" := DziBadRequest, "5xx" := DziApiDown]
  }

  lemma ExactKey404(status: int)
    ensures ExactKey(status) == "404" <==> status == 404
  {
    assert NatToString(4) == "4";
    assert NatToString(40) == "40";
    assert IntToString(404) == "404";
    IntToStringInjective(status, 404);
  }

  /** The content table routes every 2xx/3xx status to its "2xx/3xx" handler,
      every 4xx (404 included) to "4xx", every 5xx to "5xx", and nothing else. */
  lemma ContentRouting(status: int)
    ensures Select(ContentCallbacks(), status) ==
      if 200 <= status < 400 then Some(Aggregate)
      else if 400 <= status < 500 then Some("4xx")
      else if 500 <= status < 600 then Some("5xx")
      else None
  {
    assert "4xx" == [DigitChar(4)] + "xx" && "5xx" == [DigitChar(5)] + "xx";
    ExactKeyNotPattern(status);
    ClassKeyDigit(status, 4);
    ClassKeyDigit(status, 5);
    ClassKeyShape(status);
    var t := ContentCallbacks();
    assert ExactKey(status) !in t;
    assert ClassKey(status) in t <==> 400 <= status < 600;
  }

  /** The DZI table: as the content table, except that status 404 goes to
      its own "404" handler, which beats "4xx". */
  lemma DziRouting(status: int)
    ensures Select(DziCallbacks(), status) ==
      if 200 <= status < 400 then Some(Aggregate)
      else if status == 404 then Some("404")
      else if 400 <= status < 500 then Some("4xx")
      else if 500 <= status < 600 then Some("5xx")
      else None
  {
    assert "4xx" == [DigitChar(4)] + "xx" && "5xx" == [DigitChar(5)] + "xx";
    ExactKeyNotPattern(status);
    ExactKey404(status);
    ClassKeyDigit(status, 4);
    ClassKeyDigit(status, 5);
    ClassKeyShape(status);
    var t := DziCallbacks();
    assert ExactKey(status) in t <==> status == 404;
    assert ClassKey(status) in t <==> 400 <= status < 600;
  }

  // ---------------------------------------------------------------------
  // getContent

  /** getContent's `callback` helper: a supplied callback always receives
      the payload, the options and the response. */
  function NotifyContent(opts: Options, resp: Response, k: Kind, payload: Val): Outcome {
    if k in opts.handlers then Invoke(k, [payload, OptionsVal(opts), ResponseVal(resp)]) else NoCall
  }

  function ContentState(c: ContentInfo): Kind {
    if c.ready then Ready else if c.failed then Failed else Progress
  }

  function OnContentResponse(h: ContentHandler, opts: Options, resp: Response): Outcome {
    match h
    case ContentLoaded =>
      (match resp.content
       case None => TypeError
       case Some(c) => NotifyContent(opts, resp, ContentState(c), ContentVal(c)))
    case ContentBadRequest => NotifyContent(opts, resp, Error, ErrorVal(resp.error))
    case ContentApiDown => NotifyContent(opts, resp, Down, ErrorVal(resp.error))
  }

  function GetContent(opts: Options, resp: Response): Outcome {
    match Select(ContentCallbacks(), resp.status)
    case None => NoCall
    case Some(key) => OnContentResponse(ContentCallbacks()[key], opts, resp)
  }

  /** On a 2xx/3xx status the content's flags decide: ready, else failed,
      else progress. The chosen callback, if supplied, receives the content,
      the options and the response; a missing one means no call. A response
      without `content` throws. */
  lemma ContentOnSuccess(opts: Options, resp: Response)
    requires 200 <= resp.status < 400
    ensures resp.content.None? ==> GetContent(opts, resp) == TypeError
    ensures resp.content.Some? ==>
      var c := resp.content.value;
      (ContentState(c) == Ready <==> c.ready) &&
      (ContentState(c) == Failed <==> !c.ready && c.failed) &&
      (ContentState(c) == Progress <==> !c.ready && !c.failed) &&
      GetContent(opts, resp) ==
        if ContentState(c) in opts.handlers
        then Invoke(ContentState(c), [ContentVal(c), OptionsVal(opts), ResponseVal(resp)])
        else NoCall
  {
    ContentRouting(resp.status);
  }

  /** With all three supplied, exactly one of ready, failed and progress
      fires on a 2xx/3xx with content. */
  lemma ContentOnSuccessAllSupplied(opts: Options, resp: Response)
    requires 200 <= resp.status < 400 && resp.content.Some?
    requires {Ready, Failed, Progress} <= opts.handlers
    ensures var c := resp.content.value;
      var out := GetContent(opts, resp);
      out.Invoke? && out.kind in {Ready, Failed, Progress} &&
      (out.kind == Ready <==> c.ready) &&
      (out.kind == Failed <==> !c.ready && c.failed) &&
      (out.kind == Progress <==> !c.ready && !c.failed) &&
      out.args == [ContentVal(c), OptionsVal(opts), ResponseVal(resp)]
  {
    ContentOnSuccess(opts, resp);
  }

  /** A missing ready/failed/progress callback means no call. */
  lemma ContentOnSuccessUnhandled(opts: Options, resp: Response)
    requires 200 <= resp.status < 400 && resp.content.Some?
    requires ContentState(resp.content.value) !in opts.handlers
    ensures GetContent(opts, resp) == NoCall
  {
    ContentRouting(resp.status);
  }

  /** Every 4xx, 404 included, reports `error(resp.error)`. */
  lemma ContentOnClientError(opts: Options, resp: Response)
    requires 400 <= resp.status < 500
    ensures GetContent(opts, resp) ==
      if Error in opts.handlers then Invoke(Error, [ErrorVal(resp.error), OptionsVal(opts), ResponseVal(resp)]) else NoCall
  {
    ContentRouting(resp.status);
  }

  /** Every 5xx reports `down(resp.error)`. */
  lemma ContentOnServerError(opts: Options, resp: Response)
    requires 500 <= resp.status < 600
    ensures GetContent(opts, resp) ==
      if Down in opts.handlers then Invoke(Down, [ErrorVal(resp.error), OptionsVal(opts), ResponseVal(resp)]) else NoCall
  {
    ContentRouting(resp.status);
  }

  /** Any other status (1xx, 6xx and beyond, negative) runs nothing. */
  lemma ContentIgnoresOtherStatuses(opts: Options, resp: Response)
    requires resp.status < 200 || 600 <= resp.status
    ensures GetContent(opts, resp) == NoCall
  {
    ContentRouting(resp.status);
  }

  /** Only a supplied callback is ever called, and it always receives the
      options and the whole response after its payload. */
  lemma ContentCallShape(opts: Options, resp: Response)
    ensures GetContent(opts, resp).Invoke? ==>
      var out := GetContent(opts, resp);
      out.kind in opts.handlers && |out.args| == 3 &&
      out.args[1] == OptionsVal(opts) && out.args[2] == ResponseVal(resp)
    ensures GetContent(opts, resp) == TypeError ==> 200 <= resp.status < 400 && resp.content.None?
  {
    ContentRouting(resp.status);
  }

  // ---------------------------------------------------------------------
  // getDzi

  /** getDzi's (and getThumbnail's) `callback` helper: the payload is passed
      only when truthy, otherwise the callback gets just the options and the
      response. */
  function NotifyDzi(opts: Options, resp: Val, k: Kind, payload: Val): Outcome {
    if k !in opts.handlers then NoCall
    else if IsTruthy(payload) then Invoke(k, [payload, OptionsVal(opts), resp])
    else Invoke(k, [OptionsVal(opts), resp])
  }

  function DziPayload(resp: Response): Val {
    match resp.dzi
    case None => Undefined
    case Some(d) => DziVal(d)
  }

  function OnDziResponse(h: DziHandler, opts: Options, resp: Response): Outcome {
    var r := ResponseVal(resp);
    match h
    case DziLoaded => NotifyDzi(opts, r, Ready, DziPayload(resp))
    case DziNotFound =>
      if RetryAfterTruthy(resp.retryAfter) then NotifyDzi(opts, r, Progress, Undefined)
      else NotifyDzi(opts, r, Failed, Undefined)
    case DziBadRequest => NotifyDzi(opts, r, Error, ErrorVal(resp.error))
    case DziApiDown => NotifyDzi(opts, r, Down, ErrorVal(resp.error))
  }

  function GetDzi(opts: Options, resp: Response): Outcome {
    match Select(DziCallbacks(), resp.status)
    case None => NoCall
    case Some(key) => OnDziResponse(DziCallbacks()[key], opts, resp)
  }

  /** Any 2xx/3xx status reports `ready(resp.dzi)`. */
  lemma DziOnSuccess(opts: Options, resp: Response)
    requires 200 <= resp.status < 400
    ensures GetDzi(opts, resp) ==
      if Ready !in opts.handlers then NoCall
      else if resp.dzi.Some? then Invoke(Ready, [DziVal(resp.dzi.value), OptionsVal(opts), ResponseVal(resp)])
      else Invoke(Ready, [OptionsVal(opts), ResponseVal(resp)])
  {
    DziRouting(resp.status);
  }

  /** Status 404 is "not ready": a truthy `retryAfter` means progress,
      anything else failed; neither receives a payload. */
  lemma DziOnNotFound(opts: Options, resp: Response)
    requires resp.status == 404
    ensures GetDzi(opts, resp) ==
      var k := if RetryAfterTruthy(resp.retryAfter) then Progress else Failed;
      if k in opts.handlers then Invoke(k, [OptionsVal(opts), ResponseVal(resp)]) else NoCall
  {
    DziRouting(resp.status);
  }

  /** The 404 outcome ignores the error message: an unrecognised identifier
      and a failed DZI, both plain 404s, are reported alike. */
  lemma DziNotFoundAmbiguous(opts: Options, r1: Response, r2: Response)
    requires r1.status == 404 && r2.status == 404
    requires RetryAfterTruthy(r1.retryAfter) == RetryAfterTruthy(r2.retryAfter)
    ensures GetDzi(opts, r1).Invoke? <==> GetDzi(opts, r2).Invoke?
    ensures GetDzi(opts, r1).Invoke? ==>
      GetDzi(opts, r1).kind == GetDzi(opts, r2).kind &&
      GetDzi(opts, r1).args[..1] == GetDzi(opts, r2).args[..1] == [OptionsVal(opts)]
  {
    DziOnNotFound(opts, r1);
    DziOnNotFound(opts, r2);
  }

  /** Every other 4xx reports `error(resp.error)`, the message only when truthy. */
  lemma DziOnClientError(opts: Options, resp: Response)
    requires 400 <= resp.status < 500 && resp.status != 404
    ensures GetDzi(opts, resp) == NotifyDzi(opts, ResponseVal(resp), Error, ErrorVal(resp.error))
    ensures Error !in opts.handlers <==> GetDzi(opts, resp) == NoCall
  {
    DziRouting(resp.status);
  }

  /** Every 5xx reports `down(resp.error)`, the message only when truthy. */
  lemma DziOnServerError(opts: Options, resp: Response)
    requires 500 <= resp.status < 600
    ensures GetDzi(opts, resp) == NotifyDzi(opts, ResponseVal(resp), Down, ErrorVal(resp.error))
    ensures Down !in opts.handlers <==> GetDzi(opts, resp) == NoCall
  {
    DziRouting(resp.status);
  }

  lemma DziIgnoresOtherStatuses(opts: Options, resp: Response)
    requires resp.status < 200 || 600 <= resp.status
    ensures GetDzi(opts, resp) == NoCall
  {
    DziRouting(resp.status);
  }

  /** The helper's three cases: no call without the callback, else the
      payload leads the arguments exactly when it is truthy. */
  lemma NotifyDziCases(opts: Options, r: Val, k: Kind, payload: Val)
    ensures k !in opts.handlers ==> NotifyDzi(opts, r, k, payload) == NoCall
    ensures k in opts.handlers && IsTruthy(payload) ==>
      NotifyDzi(opts, r, k, payload) == Invoke(k, [payload, OptionsVal(opts), r])
    ensures k in opts.handlers && !IsTruthy(payload) ==>
      NotifyDzi(opts, r, k, payload) == Invoke(k, [OptionsVal(opts), r])
  {
  }

  /** getDzi never throws; a callback runs only if supplied, and ends its
      arguments with the options and the response; a leading payload is
      always truthy. */
  lemma DziCallShape(opts: Options, resp: Response)
    ensures GetDzi(opts, resp) != TypeError
    ensures GetDzi(opts, resp).Invoke? ==>
      var out := GetDzi(opts, resp);
      out.kind in opts.handlers && 2 <= |out.args| <= 3 &&
      out.args[|out.args| - 2..] == [OptionsVal(opts), ResponseVal(resp)] &&
      (|out.args| == 3 ==> IsTruthy(out.args[0]))
  {
    var r := ResponseVal(resp);
    var sel := Select(DziCallbacks(), resp.status);
    if sel.Some? {
      var h := DziCallbacks()[sel.value];
      assert GetDzi(opts, resp) == OnDziResponse(h, opts, resp);
      var (k, p) :=
        match h
        case DziLoaded => (Ready, DziPayload(resp))
        case DziNotFound => (if RetryAfterTruthy(resp.retryAfter) then Progress else Failed, Undefined)
        case DziBadRequest => (Error, ErrorVal(resp.error))
        case DziApiDown => (Down, ErrorVal(resp.error));
      assert OnDziResponse(h, opts, resp) == NotifyDzi(opts, r, k, p);
      NotifyDziCases(opts, r, k, p);
      assert k in opts.handlers ==> IsTruthy(p) ==> GetDzi(opts, resp).args == [p, OptionsVal(opts), r];
    } else {
      assert GetDzi(opts, resp) == NoCall;
    }
  }

  // ---------------------------------------------------------------------
  // getThumbnail

  /** The options object getThumbnail hands to getDzi: same identifier, the
      url rewritten to the thumbnail request form, and every callback
      supplied (each a wrapper around the caller's). */
  function WrapperOptions(opts: Options): Options {
    Options(opts.id, ThumbnailUrl(opts.url), AllKinds, ThumbnailRequest)
  }

  /** `dzi.url` of whatever the ready wrapper received as `dzi`; `None` when
      reading it and calling `.replace` on it throws. */
  function UrlOf(v: Val): Option<string> {
    match v
    case DziVal(d) => d.url
    case OptionsVal(o) => o.url
    case _ => None
  }

  /** The wrappers as written: each declares its parameters positionally
      (`message, opts2, resp` for error and down, `dzi, opts2, resp` for
      ready, `opts2, resp` for failed and progress), whatever getDzi passed. */
  function ThumbnailWrapperAsWritten(opts: Options, k: Kind, args: seq<Val>): Outcome {
    match k
    case Ready =>
      (match UrlOf(Arg(args, 0))
       case None => TypeError
       case Some(u) => NotifyDzi(opts, Arg(args, 2), Ready, ThumbnailVal(ThumbnailObject(u))))
    case Failed => NotifyDzi(opts, Arg(args, 1), Failed, Undefined)
    case Progress => NotifyDzi(opts, Arg(args, 1), Progress, Undefined)
    case Error => NotifyDzi(opts, Arg(args, 2), Error, Arg(args, 0))
    case Down => NotifyDzi(opts, Arg(args, 2), Down, Arg(args, 0))
  }

  /** getThumbnail as written. */
  function GetThumbnailAsWritten(opts: Options, resp: Response): Outcome {
    match GetDzi(WrapperOptions(opts), resp)
    case NoCall => NoCall
    case TypeError => TypeError
    case Invoke(k, args) => ThumbnailWrapperAsWritten(opts, k, args)
  }

  /** The payload getDzi passed to a wrapper, `undefined` if it passed none. */
  function PassedPayload(args: seq<Val>): Val {
    if |args| == 3 then args[0] else Undefined
  }

  /** The wrappers with the binding evidently intended: the payload is the
      leading argument only when getDzi passed one, and the response is the
      response. */
  function ThumbnailWrapper(opts: Options, resp: Response, k: Kind, args: seq<Val>): Outcome {
    var r := ResponseVal(resp);
    var payload := PassedPayload(args);
    match k
    case Ready =>
      if payload.DziVal? then
        match payload.dzi.url
        case None => TypeError
        case Some(u) => NotifyDzi(opts, r, Ready, ThumbnailVal(ThumbnailObject(u)))
      else NotifyDzi(opts, r, Ready, Undefined)
    case _ => NotifyDzi(opts, r, k, payload)
  }

  /** getThumbnail with the wrappers corrected. */
  function GetThumbnail(opts: Options, resp: Response): Outcome {
    match GetDzi(WrapperOptions(opts), resp)
    case NoCall => NoCall
    case TypeError => TypeError
    case Invoke(k, args) => ThumbnailWrapper(opts, resp, k, args)
  }

  /** Every outcome other than ready is getDzi's own outcome for the caller's
      options, forwarded unchanged. */
  lemma ThumbnailForwardsOtherOutcomes(opts: Options, resp: Response)
    requires !(200 <= resp.status < 400)
    ensures GetThumbnail(opts, resp) == GetDzi(opts, resp)
  {
    DziRouting(resp.status);
  }

  /** On a 2xx/3xx status the DZI is turned into its thumbnail object (a
      DZI without a url string makes `.replace` throw); without a DZI the
      outcome is getDzi's. */
  lemma ThumbnailOnSuccess(opts: Options, resp: Response)
    requires 200 <= resp.status < 400
    ensures resp.dzi.None? ==> GetThumbnail(opts, resp) == GetDzi(opts, resp)
    ensures resp.dzi.Some? && resp.dzi.value.url.None? ==> GetThumbnail(opts, resp) == TypeError
    ensures resp.dzi.Some? && resp.dzi.value.url.Some? ==>
      GetThumbnail(opts, resp) ==
        if Ready in opts.handlers
        then Invoke(Ready, [ThumbnailVal(ThumbnailObject(resp.dzi.value.url.value)), OptionsVal(opts), ResponseVal(resp)])
        else NoCall
  {
    DziRouting(resp.status);
  }

  /** The ready thumbnail has the eleven keys 1 .. 1024, level l's tile
      under 2^l. */
  lemma ThumbnailPayload(opts: Options, resp: Response)
    requires 200 <= resp.status < 400 && Ready in opts.handlers
    requires resp.dzi.Some? && resp.dzi.value.url.Some?
    ensures GetThumbnail(opts, resp).Invoke? && GetThumbnail(opts, resp).args[0].ThumbnailVal?
    ensures var tiles := GetThumbnail(opts, resp).args[0].tiles;
      tiles.Keys == {1, 2, 4, 8, 16, 32, 64, 128, 256, 512, 1024} &&
      forall l :: 0 <= l <= MaxLevel ==> Pow2(l) in tiles && tiles[Pow2(l)] == TileUrl(TileBase(resp.dzi.value.url.value), l)
  {
    var u := resp.dzi.value.url.value;
    ThumbnailOnSuccess(opts, resp);
    ThumbnailKeys(u);
    LevelsValues(TileBase(u), MaxLevel + 1);
  }

  /** The written wrappers agree with the corrected ones whenever getDzi
      passes a payload where one is expected: a 2xx/3xx carries a DZI, and
      a 4xx other than 404 or a 5xx carries a truthy error message. */
  lemma AsWrittenAgreesWithPayload(opts: Options, resp: Response)
    requires 200 <= resp.status < 400 ==> resp.dzi.Some?
    requires 400 <= resp.status < 600 && resp.status != 404 ==> IsTruthy(ErrorVal(resp.error))
    ensures GetThumbnailAsWritten(opts, resp) == GetThumbnail(opts, resp)
  {
    var w := WrapperOptions(opts);
    var r := ResponseVal(resp);
    var out := GetDzi(w, resp);
    DziRouting(resp.status);
    if 200 <= resp.status < 400 {
      var args := [DziVal(resp.dzi.value), OptionsVal(w), r];
      assert out == Invoke(Ready, args);
      assert Arg(args, 0) == PassedPayload(args) && Arg(args, 2) == r;
      assert ThumbnailWrapperAsWritten(opts, Ready, args) == ThumbnailWrapper(opts, resp, Ready, args);
    } else if resp.status == 404 {
      var k := if RetryAfterTruthy(resp.retryAfter) then Progress else Failed;
      var args := [OptionsVal(w), r];
      assert out == Invoke(k, args);
      assert Arg(args, 1) == r && PassedPayload(args) == Undefined;
      assert ThumbnailWrapperAsWritten(opts, k, args) == ThumbnailWrapper(opts, resp, k, args);
    } else if 400 <= resp.status < 600 {
      var k := if resp.status < 500 then Error else Down;
      var args := [ErrorVal(resp.error), OptionsVal(w), r];
      assert out == Invoke(k, args);
      assert Arg(args, 0) == PassedPayload(args) && Arg(args, 2) == r;
      assert ThumbnailWrapperAsWritten(opts, k, args) == ThumbnailWrapper(opts, resp, k, args);
    } else {
      assert out == NoCall;
    }
  }

  /** A 4xx (other than 404) or 5xx without a truthy error message: the
      written wrapper binds getDzi's (options, response) to (message, opts2),
      so the caller's callback receives getThumbnail's internal options as
      its message and `undefined` as the response. */
  lemma ThumbnailMessageMisbound(opts: Options, resp: Response)
    requires 400 <= resp.status < 600 && resp.status != 404
    requires !IsTruthy(ErrorVal(resp.error))
    requires (if resp.status < 500 then Error else Down) in opts.handlers
    ensures var k := if resp.status < 500 then Error else Down;
      GetThumbnailAsWritten(opts, resp) == Invoke(k, [OptionsVal(WrapperOptions(opts)), OptionsVal(opts), Undefined]) &&
      GetThumbnail(opts, resp) == Invoke(k, [OptionsVal(opts), ResponseVal(resp)])
  {
    DziRouting(resp.status);
  }

  /** A 2xx/3xx without a DZI: the written ready wrapper takes getDzi's
      options object for the DZI, so it throws when the caller gave no url
      and otherwise derives tiles from the thumbnail request URL, passing
      `undefined` as the response. */
  lemma ThumbnailReadyWithoutDzi(opts: Options, resp: Response)
    requires 200 <= resp.status < 400 && resp.dzi.None?
    ensures opts.url.None? ==> GetThumbnailAsWritten(opts, resp) == TypeError
    ensures opts.url.Some? && Ready in opts.handlers ==>
      GetThumbnailAsWritten(opts, resp) ==
        Invoke(Ready, [ThumbnailVal(ThumbnailObject(ThumbnailUrl(opts.url).value)), OptionsVal(opts), Undefined])
    ensures Ready in opts.handlers ==> GetThumbnail(opts, resp) == Invoke(Ready, [OptionsVal(opts), ResponseVal(resp)])
  {
    var w := WrapperOptions(opts);
    var args := [OptionsVal(w), ResponseVal(resp)];
    DziRouting(resp.status);
    assert GetDzi(w, resp) == Invoke(Ready, args);
    assert Arg(args, 0) == OptionsVal(w) && Arg(args, 2) == Undefined;
    assert UrlOf(OptionsVal(w)) == ThumbnailUrl(opts.url);
    assert PassedPayload(args) == Undefined;
  }

  // ---------------------------------------------------------------------
  // End-to-end scenarios

  /** Content by identifier "abc", answered 200 with a ready content. */
  lemma ContentReadyScenario(handlers: set<Kind>, image: string)
    requires Ready in handlers
    ensures var opts := Options(Some("abc"), None, handlers, Caller);
      var c := ContentInfo(true, false, map["image" := image]);
      var resp := Response(200, Some(c), None, None, None);
      GetContent(opts, resp) == Invoke(Ready, [ContentVal(c), OptionsVal(opts), ResponseVal(resp)])
  {
    ContentRouting(200);
  }

  /** A DZI still in progress: 404 with `retryAfter: 5`. */
  lemma DziProgressScenario(handlers: set<Kind>)
    requires Progress in handlers
    ensures var opts := Options(None, Some("http://x/y.jpg"), handlers, Caller);
      var resp := Response(404, None, None, None, Some(5));
      GetDzi(opts, resp) == Invoke(Progress, [OptionsVal(opts), ResponseVal(resp)])
  {
    DziRouting(404);
  }

  /** The API is down: 503 with error "down". */
  lemma DziDownScenario(opts: Options)
    requires Down in opts.handlers
    ensures var resp := Response(503, None, None, Some("down"), None);
      GetDzi(opts, resp) == Invoke(Down, [Text("down"), OptionsVal(opts), ResponseVal(resp)])
  {
    DziRouting(503);
  }
}
