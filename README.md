# zoomit.js response handling and request building, in Dafny

`zoomit.js` is a small browser library for the Zoom.it service. It has three
public methods: `Zoomit.getContent`, `Zoomit.getDzi` and `Zoomit.getThumbnail`.
Each one fetches a JSONP response for an image, chosen by identifier or by
source URL. It then calls one of the caller's callbacks: `ready`, `failed`,
`progress`, `error` or `down`.

This project models what happens between a request and a callback. It covers:

- **The request URL.** `makeApiUrlById`, `makeApiUrlByUrl` and the choice
  between them. `makeThumbnailUrl`. `encodeURIComponent`, modelled over
  Unicode scalar values with UTF-8 percent-encoding and upper-case hex digits.
  Each builder is paired with a parser that reads the URL back, and the model
  proves the round trips.
- **The status dispatcher in `makeApiRequest`.** It tries the exact status key
  first, then the `"<class>xx"` key, then the `"2xx/3xx"` key (only for classes
  2 and 3), and otherwise calls nothing.
- **The three endpoint handler tables.** The `callback` helpers are modelled as
  functions from the caller's options and the parsed response to an `Outcome`.
  An `Outcome` is one of three things:
  - no call;
  - one caller callback, with the exact positional arguments it receives;
  - a JavaScript `TypeError` escaping from the handler.
- **`makeThumbnailObject`.** It is a method whose loop fills the
  level-to-tile map. It is proved equal to a recursive specification, and that
  specification is proved to have the keys 1, 2, 4, …, 1024.

Files:

- `wrappers.dfy` holds `Option`, which models `undefined`.
- `js.dfy` holds the JavaScript behaviour the code relies on:
  - Number-to-string conversion of integers;
  - truthiness of an optional string;
  - `indexOf`;
  - `String.prototype.replace` with a string pattern, which replaces the first
    occurrence only.
- `uri.dfy` holds `encodeURIComponent` and its inverse.
- `request.dfy` holds the URL builders and their parsers.
- `dispatch.dfy` holds the status-to-key choice.
- `thumbnail.dfy` holds `makeThumbnailObject`.
- `zoomit.dfy` holds the three public methods.

The identifier is put into the by-id URL as it is, without percent-encoding
(zoomit.js:56). This model does the same. An identifier containing `?` is
therefore not recovered from the URL; `Request.ByIdMisreadWithQuestionMark`
proves this.

## Model

| member | source | states |
|---|---|---|
| `Js.NatToString` | zoomit.js:95 | the decimal form of a level is a non-empty string of digits, one digit exactly for values below 10 |
| `Js.NatToStringValue` | zoomit.js:95 | the digits of a level read back as that level |
| `Js.NatToStringInjective` | zoomit.js:95 | two levels render to the same string only when they are equal |
| `Js.IntToString` | zoomit.js:110-112 | a status renders as an optional minus sign followed by digits, with the sign exactly when it is negative |
| `Js.IntToStringInjective` | zoomit.js:112 | the exact-status key `callbacks[status]` names one status only |
| `Js.OneDigitString` | zoomit.js:110-112 | a status class renders as the single digit d exactly when the class is d |
| `Js.IndexOfFrom` | zoomit.js:89 | the found index is the first occurrence at or after the start; none means no occurrence |
| `Js.ReplaceFirst` | zoomit.js:89 | `replace` with a string pattern splices the replacement in at the first occurrence only; a string without the pattern is returned unchanged |
| `Uri.HexDigit` | zoomit.js:58 | percent-escapes use upper-case hex digits |
| `Uri.HexValueDigit` | zoomit.js:58 | each hex digit reads back as its value |
| `Uri.Utf8` | zoomit.js:58 | a character encodes as one to four UTF-8 octets |
| `Uri.Utf8RoundTrip` | zoomit.js:58 | the octets of a character are well formed UTF-8 (lead byte gives the length, the rest are continuation bytes) and decode back to that character |
| `Uri.Percent` | zoomit.js:58 | each octet becomes a three-character escape of URI-safe characters |
| `Uri.EncodeChar` | zoomit.js:58 | an encoded character consists of unreserved characters and escapes only |
| `Uri.Encode` | zoomit.js:58 | `encodeURIComponent` output holds only unreserved characters, `%` and upper-case hex digits |
| `Uri.OctetAt` | zoomit.js:58 | a decoded escape occupies three characters |
| `Uri.Octets` | zoomit.js:58 | decoding n escapes yields n octets from 3n characters |
| `Uri.OctetsPercent` | zoomit.js:58 | decoding reads back the octets just escaped, whatever follows |
| `Uri.Base64Digits` | zoomit.js:58 | the 6-bit groups of a code point reassemble to the code point |
| `Uri.DecodeEncodeChar` | zoomit.js:58 | decoding an encoded character followed by anything yields that character before the decoding of the rest |
| `Uri.DecodeEncode` | zoomit.js:58 | `decodeURIComponent(encodeURIComponent(s)) == s` for every string of scalar values |
| `Uri.EncodeInjective` | zoomit.js:58 | different strings have different encodings |
| `Request.EncodeAvoids` | zoomit.js:69-71 | an encoded value never holds a character the encoder escapes, such as `&` or `?` |
| `Request.IndexOfChar` | zoomit.js:56-57 | the first occurrence of a separator is the one placed right after a part that does not contain it |
| `Request.ParseByUrlParts` | zoomit.js:62-73 | the by-url request splits into its encoded callback name and encoded url |
| `Request.ByUrlRoundTrip` | zoomit.js:62-73 | the service recovers the callback name and the source url from a by-url request |
| `Request.ParseByIdParts` | zoomit.js:50-60 | the by-id request splits into the identifier and the encoded callback name when the identifier has no `?` |
| `Request.ByIdRoundTrip` | zoomit.js:50-60 | the service recovers the identifier and the callback name from a by-id request whose identifier has no `?` |
| `Request.FirstQuestionMarkInside` | zoomit.js:56 | an identifier holding `?` contains the first `?` of the request tail |
| `Request.ByIdMisreadWithQuestionMark` | zoomit.js:56 | the identifier is not encoded, so one holding `?` is never read back |
| `Request.ThumbnailUrlRoundTrip` | zoomit.js:75-77 | a truthy url becomes `zoomit://thumbnail/?url=` plus its encoding and reads back; a falsy url is returned unchanged |
| `Request.RequestUrlRoundTrip` | zoomit.js:125-127 | a truthy identifier selects the by-id form and a falsy one the by-url form; the by-url form is always recovered by its parser, the by-id form when the identifier holds no `?` |
| `Request.ThumbnailRequestRoundTrip` | zoomit.js:282-286 | getThumbnail's by-url DZI request carries the thumbnail URL, which in turn carries the caller's url |
| `Dispatch.StatusClass` | zoomit.js:110 | the class c is `floor(status / 100)`: `100c <= status < 100c + 100`, negative statuses included |
| `Dispatch.Candidates` | zoomit.js:112-117 | three keys are tried for classes 2 and 3, two keys otherwise |
| `Dispatch.CandidatesDistinct` | zoomit.js:112-117 | the keys tried are pairwise distinct |
| `Dispatch.Select` | zoomit.js:112-121 | a selected key is in the table and is a candidate; nothing is selected exactly when no candidate is in the table |
| `Dispatch.SelectIsFirstPresent` | zoomit.js:112-117 | the selected key is the first candidate present in the table, in the order exact, class, then `2xx/3xx` |
| `Dispatch.AggregateOnly301` | zoomit.js:114-117 | with only `2xx/3xx` in the table, status 301 selects it |
| `Dispatch.AggregateOnlyIgnores1xx` | zoomit.js:115 | with only `2xx/3xx` in the table, a 1xx status selects nothing |
| `Dispatch.ClassKeyDigit` | zoomit.js:112 | the class key is `"<d>xx"` exactly when the class is d |
| `Dispatch.ClassKeyShape` | zoomit.js:112-116 | a class key ends in `x` and never equals `2xx/3xx` |
| `Dispatch.ExactKeyNotPattern` | zoomit.js:112 | an exact-status key never equals a class key or `2xx/3xx` |
| `Thumbnail.Pow2` | zoomit.js:95 | `Math.pow(2, level)` is at least 1 |
| `Thumbnail.Pow2Increasing` | zoomit.js:92-95 | higher levels get strictly larger keys, so no entry is overwritten |
| `Thumbnail.PowerKeysBelow` | zoomit.js:92-95 | the keys of the first n levels are all below 2^n |
| `Thumbnail.LevelsKeys` | zoomit.js:90-96 | n levels give exactly the keys 2^0 … 2^(n-1), n entries |
| `Thumbnail.LevelsValues` | zoomit.js:95 | level l is stored under 2^l as `base + l + "/0_0.png"` |
| `Thumbnail.PowerKeysEleven` | zoomit.js:92 | levels 0 to 10 give the keys 1, 2, 4, …, 1024 |
| `Thumbnail.ThumbnailKeys` | zoomit.js:89-98 | the thumbnail object has exactly the eleven keys 1 … 1024 |
| `Thumbnail.DziSuffixBase` | zoomit.js:89 | a url ending in its only `.dzi` has base `<stem>_files/` |
| `Thumbnail.OnlyFirstDziReplaced` | zoomit.js:89 | only the first `.dzi` is replaced: `a.dzi.dzi` gives `a_files/.dzi` |
| `Thumbnail.MakeThumbnailObject` | zoomit.js:79-99 | the loop builds the specified eleven-entry map, with level l's tile under key 2^l |
| `Zoomit.ExactKey404` | zoomit.js:228 | the exact key is `"404"` exactly for status 404 |
| `Zoomit.ContentRouting` | zoomit.js:159-183 | the content table sends 2xx/3xx to `2xx/3xx`, every 4xx including 404 to `4xx`, 5xx to `5xx`, and anything else nowhere |
| `Zoomit.DziRouting` | zoomit.js:219-246 | the DZI table does the same, except that 404 goes to its own `404` key ahead of `4xx` |
| `Zoomit.ContentOnSuccess` | zoomit.js:162-171 | on 2xx/3xx the `ready` and then `failed` flags choose among ready, failed and progress; the chosen callback, if supplied, receives the content, the options and the response, and otherwise nothing is called; a missing `content` throws |
| `Zoomit.ContentOnSuccessAllSupplied` | zoomit.js:162-171 | with all three callbacks supplied, exactly one of ready, failed and progress fires on a 2xx/3xx with content |
| `Zoomit.ContentOnSuccessUnhandled` | zoomit.js:153-157 | a missing ready, failed or progress callback means no call |
| `Zoomit.ContentOnClientError` | zoomit.js:174-176 | every 4xx, 404 included, calls `error(resp.error, opts, resp)` if it is supplied |
| `Zoomit.ContentOnServerError` | zoomit.js:179-181 | every 5xx calls `down(resp.error, opts, resp)` if it is supplied |
| `Zoomit.ContentIgnoresOtherStatuses` | zoomit.js:112-121 | any status outside 200 to 599 calls nothing and is not an error |
| `Zoomit.ContentCallShape` | zoomit.js:153-157 | getContent only calls a supplied callback, always with three arguments ending in the options and the response; it throws only on a 2xx/3xx without content |
| `Zoomit.DziOnSuccess` | zoomit.js:222-224 | 2xx/3xx calls `ready(dzi, opts, resp)`, or `ready(opts, resp)` when there is no DZI |
| `Zoomit.DziOnNotFound` | zoomit.js:228-234 | 404 calls `progress(opts, resp)` when `retryAfter` is truthy and `failed(opts, resp)` otherwise |
| `Zoomit.DziNotFoundAmbiguous` | zoomit.js:203-234 | two 404 responses with the same `retryAfter` truthiness give the same callback and leading arguments, so an unknown identifier looks like a failed DZI |
| `Zoomit.DziOnClientError` | zoomit.js:237-239 | any other 4xx calls `error`, with the message only when it is truthy; no call exactly when `error` is missing |
| `Zoomit.DziOnServerError` | zoomit.js:242-244 | every 5xx calls `down`, with the message only when it is truthy; no call exactly when `down` is missing |
| `Zoomit.DziIgnoresOtherStatuses` | zoomit.js:112-121 | any status outside 200 to 599 calls nothing |
| `Zoomit.DziCallShape` | zoomit.js:207-248 | getDzi never throws and only calls a supplied callback, with two or three arguments ending in the options and the response, and a leading payload is always truthy |
| `Zoomit.ThumbnailForwardsOtherOutcomes` | zoomit.js:288-306 | outside 2xx/3xx the corrected getThumbnail gives exactly getDzi's outcome for the caller's options |
| `Zoomit.ThumbnailOnSuccess` | zoomit.js:296-298 | on 2xx/3xx the DZI becomes its thumbnail object, passed to `ready` with the caller's options and the response; a DZI without a url throws |
| `Zoomit.ThumbnailPayload` | zoomit.js:296-298 | the ready thumbnail has the keys 1 … 1024, with level l's tile under 2^l |
| `Zoomit.AsWrittenAgreesWithPayload` | zoomit.js:282-308 | when a 2xx/3xx carries a DZI and a 4xx other than 404 or a 5xx carries a truthy error message, the wrappers as written behave like the corrected ones |
| `Zoomit.ThumbnailMessageMisbound` | zoomit.js:288-294 | a 4xx (not 404) or 5xx without a truthy message gives the caller getDzi's options as the message and `undefined` as the response |
| `Zoomit.ThumbnailReadyWithoutDzi` | zoomit.js:296-298 | a 2xx/3xx without a DZI throws when the caller gave no url, and otherwise builds tiles from the thumbnail request URL |
| `Zoomit.ContentReadyScenario` | zoomit.js:162-165 | content `abc` answered 200 and ready calls `ready(content, opts, resp)` |
| `Zoomit.DziProgressScenario` | zoomit.js:228-230 | a 404 with `retryAfter: 5` calls `progress(opts, resp)` |
| `Zoomit.DziDownScenario` | zoomit.js:242-244 | a 503 with error `down` calls `down("down", opts, resp)` |

## Left out

- Script injection (`makeScriptRequest`) and the JSONP transport are browser I/O.
  The model takes the parsed response as an input.
- Registering and removing the global callback (`makeGlobalWrapper`) and its
  random name are left out. The callback name is an input string.
- Removing the script element from the page and `console.log` have no
  observable result here.
- `Zoomit.apiPath` is a mutable global. It is a parameter of the URL builders.
- The callbacks themselves are opaque. Only whether each one is present matters,
  and what a callback does after it is called is not modelled.
- JavaScript truthiness is modelled only for the values that reach a test:
  - strings are truthy when non-empty;
  - `retryAfter` is truthy when it is a non-zero number (NaN is not modelled);
  - `content.ready` and `content.failed` are booleans;
  - objects are always truthy.
- Statuses are integers. Non-integer, NaN and infinite statuses, and Numbers of
  1e21 or more (which JavaScript prints in exponent form), are not modelled.
- Strings are sequences of Unicode scalar values. A lone surrogate, which makes
  `encodeURIComponent` throw a `URIError`, cannot be represented.
- The service's URL parsing is not part of zoomit.js. `Request.ParseByUrl`,
  `Request.ParseById`, `Request.ParseThumbnailUrl` and `Uri.Decode` are
  reference readers, used only to state what the built URLs carry.
- `Thumbnail.MakeThumbnailObject` takes the DZI's url string rather than the
  DZI object. Reading `dzi.url` and the `TypeError` when it is missing are
  modelled in `Zoomit` (`UrlOf` and the `Ready` branch of the wrappers).

## Findings

| source | as written | input that shows it | evidently intended | confidence | as-written member | corrected member |
|---|---|---|---|---|---|---|
| zoomit.js:288-294 | the `error` and `down` wrappers take `(message, opts2, resp)` positionally, but getDzi calls them as `(opts, resp)` when `resp.error` is falsy | status 503, no `error` field, `down` supplied: the caller gets `down(innerOpts, opts, undefined)` | `down(opts, resp)`, the same call getDzi would make | high, not executed | `Zoomit.ThumbnailMessageMisbound` | `Zoomit.ThumbnailForwardsOtherOutcomes` |
| zoomit.js:296-298 | the `ready` wrapper takes `(dzi, opts2, resp)`, but getDzi calls it as `(opts, resp)` when `resp.dzi` is falsy, so the options object is used as the DZI | status 301 with no `dzi`: an absent url gives a `TypeError`; otherwise the tiles come from `makeThumbnailUrl(url)` and the response passed is `undefined` | `ready(opts, resp)` with no thumbnail | medium, not executed | `Zoomit.ThumbnailReadyWithoutDzi` | `Zoomit.ThumbnailOnSuccess` |

`Zoomit.GetThumbnailAsWritten` models the wrappers as written.
`Zoomit.GetThumbnail` binds each wrapper's arguments by what getDzi actually
passed, and the rest of the model uses it. `Zoomit.AsWrittenAgreesWithPayload`
proves that the two agree whenever each wrapper receives the payload it
expects: a DZI on a 2xx/3xx, and a truthy message on a 4xx other than 404 or
a 5xx. A 404 passes no payload, and there the two agree as well.
