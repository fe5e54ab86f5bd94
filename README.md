# nekpics page handlers in Dafny

This project models the server-side decision rules of a SvelteKit photo
site that serves albums from an Immich photo server:

- the gallery listing (`/albums`): shared albums whose name carries `**`;
- the customer listing (`/customer-albums`): shared albums whose name
  carries `*customer*`;
- the home page (`/`): the photos of every album whose name mentions
  "people" or "landscape";
- the image endpoint (`GET /api/image`): fetches a thumbnail or an
  original from the photo server and resizes originals.

Everything the handlers do between their `fetch` calls is pure, so the model
is made of datatypes, functions and lemmas. The answers of the photo server
are inputs:

- the album list is a `Fetched<seq<AlbumResponse>>`;
- the album details are a function from album id to `Fetched<AlbumResponse>`;
- the image bytes are a function from upstream URL to `Fetched<Bytes>`.

`Fetched` is `Ok(body)`, `NotOk(status)` or `Failed`, where `Failed` is a
transport failure or a body that is not JSON. The two environment settings
are `Option<string>`. The image library is a function parameter `sharp`.
A handler that throws `error(status, message)` returns `Thrown(HttpError(status, message))`.

Modules:

- `JsText`: `includes`, and a global `replace` of a literal regular
  expression by `''`. The replace is one left-to-right pass that deletes
  non-overlapping occurrences, with or without the `i` flag. Also `trim`
  (with JavaScript's set of white-space characters) and `toLowerCase`.
- `JsArray`: `filter` and `flat`.
- `SearchParams`: reads a URL query into name/value pairs the way
  `url.searchParams.get` does.
- `Immich`: the records of `src/lib/types.ts`, `||` on strings, the image
  URLs handed to the browser, and `getAlbumInfo` together with the
  per-album mapping that both listings share.
- `Albums`, `CustomerAlbums`, `Home`, `ImageEndpoint`: one module per page
  handler.

Behaviour worth noting, each point proved as a lemma:

- **Customer filter.** `includes('*customer*')` is case-sensitive, so a
  shared album named `*Customer*` is not listed
  (`CustomerAlbums.FilterIsCaseSensitive`). The title rule, by contrast,
  removes the marker in any letter case (`CustomerAlbums.TitleStripsAnyCase`).
- **Customer titles can keep the marker.** A single deletion pass can join
  the two halves of a broken marker into a new one: `*cus*customer*tomer*`
  becomes `*customer*` (`CustomerAlbums.TitleCanKeepMarker`). The `**` rule
  does leave no `**` behind (`JsText.RemoveDoubleStarLeavesNone`).
- **Gallery titles are not trimmed.** Only the customer listing calls
  `trim` (`Albums.TitleIsNotTrimmed`).
- **A non-2xx upstream status is replaced by the `catch`.** The `HttpError`
  thrown inside each `try` is caught by its own `catch`:
  - the image endpoint answers 500 `Internal server error`
    (`ImageEndpoint.UpstreamFailureIsInternalError`);
  - the listings answer 500 `Failed to fetch albums` (`Albums.GetAlbumList`);
  - the home page answers with no photos (`Home.Load`).
- **The photo id is not validated.** It is checked only for being
  non-empty and goes into the photo-service path unescaped
  (`ImageEndpoint.AnyIdIsRequested`). So `photoId=../albums#` with
  `isThumb=true` requests `<base>/api/assets/../albums#/thumbnail`
  (`ImageEndpoint.PhotoIdIsNotValidated`). A URL parser that resolves dot
  segments and drops the fragment turns that into `<base>/api/albums`, the
  album list, fetched with the server's API key and answered as
  `image/jpeg`.
- **A failed album detail does not drop the album from a listing.** The
  listings keep it, with no thumbnails and no cover
  (`Albums.GalleryAlbumPhotos`). On the home page it contributes no photos
  and leaves the others unchanged (`Home.FailedAlbumContributesNothing`).

## Model

| member | source | states |
|---|---|---|
| JsText.ToLowerCase | src/routes/+page.server.ts:79-80 | same length; every ASCII capital becomes its small letter and every other character is kept |
| JsText.Includes | src/routes/albums/+page.server.ts:70 | `s.includes(pat)`: some position of `s`, with `pat` fitting after it, from which `s` starts with `pat`, compared case-sensitively |
| JsText.IsWhiteSpace | src/routes/customer-albums/+page.server.ts:80 | the characters `trim` removes include space, tab, line feed and carriage return; none of them is a star or has a letter case |
| JsText.RemoveAll | src/routes/albums/+page.server.ts:82 | deleting occurrences never makes the string longer |
| JsText.RemoveAllUnchanged | src/routes/albums/+page.server.ts:82 | the replace leaves the name unchanged if and only if the pattern does not occur in it |
| JsText.RemoveAllKeepsPrefix | src/routes/customer-albums/+page.server.ts:80 | characters before the first occurrence are copied, and the pass goes on from there |
| JsText.RemoveAllAt | src/routes/customer-albums/+page.server.ts:80 | the first occurrence is deleted, and the pass resumes right after it |
| JsText.RemoveAllShort | src/routes/customer-albums/+page.server.ts:80 | a string shorter than the pattern is left as it is |
| JsText.RemoveDoubleStarLeavesNone | src/routes/albums/+page.server.ts:82 | after `replace(/\*\*/g, '')` no two adjacent `*` remain, whatever the name |
| JsText.NoDoubleStarIsNotIncludes | src/routes/albums/+page.server.ts:70 | "no two adjacent stars" is the same as "does not include `**`" |
| JsText.DeletionCanReformPattern | src/routes/customer-albums/+page.server.ts:80 | if `a + b` is the pattern and nothing matches inside `a`, the pass turns `a + pattern + b` into the pattern |
| JsText.CustomerMarkerCanSurvive | src/routes/customer-albums/+page.server.ts:80 | the case-insensitive pass turns `*cus*customer*tomer*` into `*customer*` |
| JsText.Trim | src/routes/customer-albums/+page.server.ts:80 | the result starts and ends with non-white-space; it is an infix of the input, and everything cut from either end is white space |
| JsText.TrimUnchanged | src/routes/customer-albums/+page.server.ts:80 | a string without white space at its ends is its own trim |
| JsText.TrimIdempotent | src/routes/customer-albums/+page.server.ts:80 | trimming twice is trimming once |
| JsArray.Filter | src/routes/albums/+page.server.ts:69-71 | every kept element satisfies the predicate and comes from the input; every input element that satisfies it is kept; never longer |
| JsArray.FilterAppend | src/routes/+page.server.ts:77-81 | filtering distributes over concatenation, so the input order is kept |
| JsArray.FilterKeepsAll | src/routes/albums/+page.server.ts:69-71 | the filter keeps the whole list if and only if every album passes |
| JsArray.Flat | src/routes/+page.server.ts:86 | the flattened length is the sum of the inner lengths |
| JsArray.FlatOne | src/routes/+page.server.ts:86 | flattening a single list gives it back |
| JsArray.FlatAppend | src/routes/+page.server.ts:86 | flattening distributes over concatenation, so lists come one after another in order |
| SearchParams.Split | src/routes/api/image/+server.ts:7-9 | at least one piece, and no piece contains the separator |
| SearchParams.JoinSplit | src/routes/api/image/+server.ts:7-9 | joining the pieces with the separator gives the query back, so splitting loses nothing |
| SearchParams.SplitAfter | src/routes/api/image/+server.ts:7-9 | a separator-free piece followed by the separator splits off whole |
| SearchParams.SplitNone | src/routes/api/image/+server.ts:7-9 | a string without the separator is one piece |
| SearchParams.IndexOf | src/routes/api/image/+server.ts:7-9 | the position of the first occurrence of the character |
| SearchParams.ParsePair | src/routes/api/image/+server.ts:7-9 | the piece is cut at its first `=`: the name has no `=`, and name, `=` and value make up the piece; a piece without `=` is a name with the empty value |
| SearchParams.ParsePieces | src/routes/api/image/+server.ts:7-9 | one pair per piece, each the parse of that piece, in order |
| SearchParams.ParsePiecesAppend | src/routes/api/image/+server.ts:7-9 | parsing pieces distributes over concatenation |
| SearchParams.ParseQuery | src/routes/api/image/+server.ts:7-9 | at most one pair per `&`-separated piece |
| SearchParams.ParseQueryOne | src/routes/api/image/+server.ts:7-9 | a piece without `&` reads as no pair when empty, otherwise as the parse of that piece |
| SearchParams.ParseQueryAppend | src/routes/api/image/+server.ts:7-9 | the pairs of `a&b` are those of `a` followed by those of `b` when `a` has no `&`; with `ParseQueryOne` this fixes every query's pairs, in order, with empty pieces skipped |
| SearchParams.QueryOf | src/routes/api/image/+server.ts:7-9 | the query never contains the fragment marker `#`, and a URL with no `?` before its fragment has the empty query |
| SearchParams.QueryOfUrl | src/routes/api/image/+server.ts:7-9 | the query of `p?x#f` is `x`, the text after the first `?` and before the fragment, when `p` has no `?` and neither has `#` |
| SearchParams.ParsePairOf | src/routes/api/image/+server.ts:7-9 | `name=value` reads back as `(name, value)` when the name has no `=` |
| SearchParams.ParseTwoPairs | src/routes/api/image/+server.ts:7-9 | `n1=v1&n2=v2` reads back as those two pairs, in order |
| Immich.OrElse | src/routes/albums/+page.server.ts:83 | `x \|\| fallback`: the string when present and non-empty, otherwise the fallback |
| Immich.Configured | src/routes/albums/+page.server.ts:48 | `!baseImmichUrl \|\| !xApiKey` is false exactly when both settings are present and non-empty |
| Immich.ThumbnailUrl | src/routes/albums/+page.server.ts:78 | the URL is `/api/image?photoId=`, then the asset id, then `&isThumb=true`, so the id can be read back from between them |
| Immich.WebUrl | src/routes/+page.server.ts:61 | the URL is `/api/image?photoId=`, then the asset id, then `&isWeb=true`, so the id can be read back from between them |
| Immich.ThumbnailUrlInjective | src/routes/albums/+page.server.ts:77-78 | distinct asset ids give distinct thumbnail URLs |
| Immich.WebAndThumbnailUrlsDiffer | src/routes/+page.server.ts:61-62 | no web-image URL equals any thumbnail URL |
| Immich.AlbumInfo | src/routes/albums/+page.server.ts:6-42 | the detail when the request succeeds; otherwise the unshared `Error loading album` placeholder with no assets |
| Immich.CoverImage | src/routes/albums/+page.server.ts:84 | the first asset's id when there is one and it is non-empty, otherwise `''` |
| Immich.ShapeAlbum | src/routes/albums/+page.server.ts:75-87 | id and description come from the list entry; one thumbnail URL per detail asset, in order; cover from the first asset; no thumbnails and no cover when the detail failed |
| Immich.ShapeAlbums | src/routes/albums/+page.server.ts:74-88 | one display album per entry, in entry order, each shaped from that entry and its own detail |
| Albums.Listed | src/routes/albums/+page.server.ts:69-71 | an album is listed exactly when it is shared and its name has two adjacent `*`, compared case-sensitively |
| Albums.Title | src/routes/albums/+page.server.ts:82 | the title contains no `**`, is no longer than the name, and equals the name if and only if the name has no `**` |
| Albums.GetAlbumList | src/routes/albums/+page.server.ts:44-95 | missing configuration gives 500 `Server configuration error`; any list failure gives 500 `Failed to fetch albums`; otherwise one album per filtered entry, with that entry's id and a title free of `**` |
| Albums.GalleryAlbumsAreMarkedShared | src/routes/albums/+page.server.ts:69-71 | every listed album comes from a shared list entry whose name includes `**`, with its id and cleaned name |
| Albums.GalleryAlbumPhotos | src/routes/albums/+page.server.ts:74-88 | description is the entry's or `''`; thumbnails are one per detail asset in order; the cover is the first asset or `''`; a failed detail gives no thumbnails and no cover |
| Albums.TitleIsNotTrimmed | src/routes/albums/+page.server.ts:82 | `** Wedding` is titled ` Wedding`, keeping its space |
| CustomerAlbums.Listed | src/routes/customer-albums/+page.server.ts:67-69 | an album is listed exactly when it is shared and `*customer*` occurs in its name with that exact letter case; a listed name is at least as long as the marker |
| CustomerAlbums.Title | src/routes/customer-albums/+page.server.ts:80 | the title has no white space at either end and is no longer than the name |
| CustomerAlbums.TitleWithoutMarker | src/routes/customer-albums/+page.server.ts:80 | a name without any letter case of the marker is only trimmed |
| CustomerAlbums.GetCustomerAlbumList | src/routes/customer-albums/+page.server.ts:42-92 | missing configuration gives 500 `Server configuration error`; any list failure gives 500 `Failed to fetch albums`; otherwise one album per filtered entry, with its id and cleaned title |
| CustomerAlbums.CustomerAlbumsAreMarkedShared | src/routes/customer-albums/+page.server.ts:67-69 | every listed album comes from a shared list entry whose name includes `*customer*` exactly |
| CustomerAlbums.CustomerAlbumPhotos | src/routes/customer-albums/+page.server.ts:72-86 | description, thumbnails and cover as in the gallery; a failed detail leaves the album listed, with no thumbnails and no cover |
| CustomerAlbums.FilterIsCaseSensitive | src/routes/customer-albums/+page.server.ts:68 | a shared album named `*Customer*` is not listed |
| CustomerAlbums.RemoveMarkersAroundAnn | src/routes/customer-albums/+page.server.ts:80 | the case-insensitive pass removes both `*customer*` and `*CUSTOMER*` from `*customer*Ann*CUSTOMER*` |
| CustomerAlbums.TitleOfStripped | src/routes/customer-albums/+page.server.ts:80 | when the pass leaves a string with no white space at its ends, that string is the title |
| CustomerAlbums.TitleOfAnn | src/routes/customer-albums/+page.server.ts:80 | `*customer*Ann*CUSTOMER*` is titled `Ann` |
| CustomerAlbums.TitleStripsAnyCase | src/routes/customer-albums/+page.server.ts:80 | a shared album named `*customer*Ann*CUSTOMER*` is listed and titled `Ann` |
| CustomerAlbums.TitleOfSurvivor | src/routes/customer-albums/+page.server.ts:80 | `*cus*customer*tomer*` is titled `*customer*` |
| CustomerAlbums.TitleCanKeepMarker | src/routes/customer-albums/+page.server.ts:80 | a shared album named `*cus*customer*tomer*` is listed, and its cleaned title is `*customer*`, which still includes the marker |
| Home.ToPhoto | src/routes/+page.server.ts:60-65 | the web and thumbnail URLs of the asset; title is the capture time or `No date`; description is the description, else the capture time, else `No description available`; neither is empty |
| Home.GetAlbumPhotos | src/routes/+page.server.ts:36-70 | no photos when the request fails; otherwise one photo per asset, in order; every photo has a title and a description |
| Home.GetAlbumList | src/routes/+page.server.ts:6-34 | missing configuration throws 500 `Server configuration error`; a failed request gives `[]`; otherwise the list |
| Home.AlbumPhotoLists | src/routes/+page.server.ts:84-85 | one photo list per album, in album order, each from that album's own detail |
| Home.AlbumPhotoListsAppend | src/routes/+page.server.ts:84-85 | the photo lists of two runs of albums are those of each run, one after the other |
| Home.FlatDescribed | src/routes/+page.server.ts:86 | flattening lists of photos that have titles and descriptions gives such photos |
| Home.Load | src/routes/+page.server.ts:72-97 | never throws; no photos when unconfigured or when the list fails; otherwise as many photos as the relevant albums hold together, each with a title and a description |
| Home.LoadOne | src/routes/+page.server.ts:77-86 | a single album yields its own photos when configured and relevant, otherwise none |
| Home.LoadAppend | src/routes/+page.server.ts:77-86 | the photos of a list of albums are those of its first part followed by those of its second part |
| Home.FailedAlbumAlone | src/routes/+page.server.ts:66-69 | an album whose detail request fails yields no photos |
| Home.FailedAlbumContributesNothing | src/routes/+page.server.ts:66-69 | inserting an album whose detail request fails changes nobody's photos |
| JsText.LowerIncludesIffOccursIgnoringCase | src/routes/+page.server.ts:79-80 | searching the lower-cased name for a lower-case word is searching the name for the word in any ASCII letter case |
| Home.Relevant | src/routes/+page.server.ts:77-81 | an album is relevant exactly when its name contains `people` or `landscape` in any ASCII letter case; `shared` is not looked at |
| Home.RelevantIgnoresCase | src/routes/+page.server.ts:77-81 | an album is relevant if and only if it is relevant under its lower-cased name |
| Home.UnsharedAlbumIsRelevant | src/routes/+page.server.ts:77-81 | an unshared album named `PEOPLE 2024` is relevant |
| ImageEndpoint.Param | src/routes/api/image/+server.ts:7 | nothing when no pair has the name; otherwise the value of the first pair with it |
| ImageEndpoint.Flag | src/routes/api/image/+server.ts:8-9 | a flag is set exactly when the first pair with its name has the value `true`, exactly that |
| ImageEndpoint.UpstreamUrl | src/routes/api/image/+server.ts:23-25 | the base, `/api/assets/`, the photo id, then `/thumbnail` exactly when a thumbnail is asked for and `/original` exactly when not |
| ImageEndpoint.UpstreamUrlsAreDistinct | src/routes/api/image/+server.ts:23-25 | distinct ids or distinct kinds give distinct URL strings |
| ImageEndpoint.AnyIdIsRequested | src/routes/api/image/+server.ts:11-67 | any non-empty id, whatever it holds, is put into the thumbnail URL and an ok response's body is returned as the image |
| ImageEndpoint.PhotoIdIsNotValidated | src/routes/api/image/+server.ts:11-67 | `photoId=../albums#` with `isThumb=true` requests `<base>/api/assets/../albums#/thumbnail` and returns its body as the image |
| ImageEndpoint.Get | src/routes/api/image/+server.ts:6-72 | a missing or empty `photoId` gives 400, exactly then; otherwise missing configuration gives 500 `Server configuration error`, exactly then; past both checks the only error is 500 `Internal server error`: a failed or non-ok upstream request gives it; an ok request with `isThumb` or `fullRes` succeeds with the upstream bytes; an ok request without either succeeds exactly when the image library does, with its output; every success carries the three image headers |
| ImageEndpoint.MissingPhotoIdMakesNoRequest | src/routes/api/image/+server.ts:11-13 | without a photo id the answer does not depend on the configuration, the photo server or the image library |
| ImageEndpoint.OnlyUpstreamUrlIsRequested | src/routes/api/image/+server.ts:23-33 | the answer depends on the photo server only through the one URL selected by `isThumb` |
| ImageEndpoint.UpstreamFailureIsInternalError | src/routes/api/image/+server.ts:35-71 | a non-ok or failed upstream request gives 500 `Internal server error`, whatever the status |
| ImageEndpoint.FlagNeedsExactTrue | src/routes/api/image/+server.ts:8-9 | `TRUE` and `1` do not set a flag; only the first occurrence counts |
| ImageEndpoint.ImageUrlQueryString | src/routes/+page.server.ts:61-62 | the query of an asset's image URL is `photoId=<id>&<flag>=true` |
| ImageEndpoint.ImageQueryPairs | src/routes/+page.server.ts:61-62 | `photoId=<id>&<flag>=true` reads back as its two pairs |
| ImageEndpoint.ImageUrlQuery | src/routes/+page.server.ts:61-62 | an asset's image URL reads back as the id and its one flag |
| ImageEndpoint.ThumbnailUrlParams | src/routes/albums/+page.server.ts:78 | a thumbnail URL reads back as the asset id with `isThumb` set |
| ImageEndpoint.WebUrlParams | src/routes/+page.server.ts:61 | a web-image URL reads back as the asset id with neither `isThumb` nor `fullRes` set |
| ImageEndpoint.ServingThumbnailUrl | src/routes/api/image/+server.ts:23-67 | a thumbnail URL handed out by the pages fetches that asset's thumbnail and returns its bytes unchanged; an empty id gives 400; a failed fetch gives 500 |
| ImageEndpoint.ServingWebUrl | src/routes/api/image/+server.ts:46-58 | a home-page web URL fetches the original and returns it resized to fit 1920x1080; `isWeb` is not read |

## Left out

- `fetch`, response headers, `response.json()`, `response.text()` and
  `arrayBuffer`: network I/O. Their results are inputs.
- A detail or list body that parses as JSON but lacks the expected fields
  (for example no `assets` array). In the listings such a body makes the
  mapping throw, so the whole listing answers 500; the model assumes every
  parsed body has the shape of `src/lib/types.ts`.
- How `fetch` parses the URL it is given (dot segments, `?`, `#`): the
  model stops at the URL string, so `ImageEndpoint.UpstreamUrlsAreDistinct`
  speaks of distinct strings, not distinct requests. The endpoint does not
  validate `photoId` beyond its being non-empty, and the model adds no
  such check.
- `env` reads: the two settings are inputs.
- The configuration check inside `getAlbumInfo` and `getAlbumPhotos`.
  The calling handler has already checked the same settings, so it never
  fires.
- The image library (`sharp` resize and JPEG encoding): a foreign library
  and image numerics. It is the parameter `sharp`, whose arguments
  (1920x1080, `inside`, no enlargement, quality 80, mozjpeg) are modelled
  exactly.
- `Promise.all` concurrency: the requests are independent, so it is an
  order-preserving map.
- `console.error` logging.
- The `|| []` after `assets.map(...)` in both listings: an array is always
  truthy, so it never applies.
- SearchParams.ParsePair: does not model percent-decoding or `+` as a space,
  which `URLSearchParams` applies to each name and value as it parses the
  query.
- SearchParams.ParseQuery: has the same gap, since it parses every piece with
  `ParsePair`. Asset ids are assumed not to contain `&`, `#`, `%` or `+`
  (`PlainId`).
- JsText.ToLowerCase: lowers ASCII letters only. The only other characters
  that lower to ASCII letters are the Kelvin sign and `İ`; neither yields a
  letter of `people` or `landscape`. The `i` flag without `u` matches only
  ASCII case variants of `*customer*`.
- `albumName` is assumed to be a string. A missing name makes
  `includes`/`toLowerCase` throw, which the model does not represent.
- `src/routes/customer-albums/[albumId]/+page.server.ts` (one customer
  album's page) is not part of this model.
- `src/routes/api/contact/+server.ts` is not part of this model: it wraps a
  mail transport.
- `src/routes/api/robphoto/+server.ts` is not part of this model: it is a
  random choice, a file read and the image library.
- `src/app.d.ts`, `tailwind.config.js` and `vite.config.ts` hold no logic.
