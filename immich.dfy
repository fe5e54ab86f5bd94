/**
 * What the page handlers share: the records of the photo service and of the
 * site, the configuration, the outcome of one upstream request, the image
 * URLs the site hands to the browser, and the per-album step that both album
 * listings run (fetch the album's detail, falling back to a placeholder, and
 * turn the pair into a display album).
 */
module Immich {
  import opened JsText

  datatype Option<+T> = None | Some(value: T)

  /** JavaScript truthiness of a string that may be missing. */
  predicate Truthy(x: Option<string>)
  {
    x.Some? && x.value != ""
  }

  /** `x || fallback` for a string that may be missing: a missing or empty
      string falls through to the fallback. */
  function OrElse(x: Option<string>, fallback: string): (r: string)
    ensures Truthy(x) ==> r == x.value
    ensures !Truthy(x) ==> r == fallback
  {
    if Truthy(x) then x.value else fallback
  }

  /** The two environment settings every handler reads. */
  datatype Config = Config(immichUrl: Option<string>, apiKey: Option<string>)

  /** `!baseImmichUrl || !xApiKey` is false: both settings are present and
      non-empty. */
  predicate Configured(c: Config)
    ensures Configured(c) <==> c.immichUrl.Some? && c.immichUrl.value != ""
                               && c.apiKey.Some? && c.apiKey.value != ""
  {
    Truthy(c.immichUrl) && Truthy(c.apiKey)
  }

  /**
   * One upstream request as a handler sees it: the parsed body of a response
   * whose `ok` is true, a response with a non-2xx status, or a failure of
   * the transport or of reading the body as JSON. A body that parses always
   * has the shape of `T`.
   */
  datatype Fetched<+T> = Ok(value: T) | NotOk(status: int) | Failed

  /** The `HttpError` that `error(status, message)` throws. */
  datatype HttpError = HttpError(status: int, message: string)

  /** A handler that either returns a value or throws an `HttpError`. */
  datatype Outcome<+T> = Done(value: T) | Thrown(error: HttpError)

  /** One asset stub of an album as the photo service returns it. */
  datatype Asset = Asset(id: string, localDateTime: Option<string>, description: Option<string>)

  /** `AlbumResponse`: one album of the photo service, with its assets. */
  datatype AlbumResponse = AlbumResponse(
    id: string,
    albumName: string,
    description: Option<string>,
    shared: bool,
    coverImage: string,
    assets: seq<Asset>)

  /** `Album`: one album as a listing page shows it. */
  datatype Album = Album(
    id: string,
    title: string,
    description: string,
    coverImage: string,
    photoUrls: seq<string>)

  /** `Photo`: one photo as the home page shows it. */
  datatype Photo = Photo(url: string, thumbnailUrl: string, title: string, description: string)

  const ImagePrefix := "/api/image?photoId="
  const ThumbSuffix := "&isThumb=true"
  const WebSuffix := "&isWeb=true"

  /** The image-endpoint URL of an asset's thumbnail. */
  function ThumbnailUrl(id: string): (url: string)
    ensures |url| == |ImagePrefix| + |id| + |ThumbSuffix|
    ensures url[..|ImagePrefix|] == ImagePrefix && url[|url| - |ThumbSuffix|..] == ThumbSuffix
    ensures url[|ImagePrefix|..|url| - |ThumbSuffix|] == id
  {
    ImagePrefix + id + ThumbSuffix
  }

  /** The image-endpoint URL of an asset's web-sized image. */
  function WebUrl(id: string): (url: string)
    ensures |url| == |ImagePrefix| + |id| + |WebSuffix|
    ensures url[..|ImagePrefix|] == ImagePrefix && url[|url| - |WebSuffix|..] == WebSuffix
    ensures url[|ImagePrefix|..|url| - |WebSuffix|] == id
  {
    ImagePrefix + id + WebSuffix
  }

  /** Distinct assets get distinct thumbnail URLs. */
  lemma ThumbnailUrlInjective(a: string, b: string)
    ensures ThumbnailUrl(a) == ThumbnailUrl(b) ==> a == b
  {
    if ThumbnailUrl(a) == ThumbnailUrl(b) {
      assert |a| == |b|;
      forall k | 0 <= k < |a| ensures a[k] == b[k] {
        assert a[k] == ThumbnailUrl(a)[|ImagePrefix| + k];
        assert b[k] == ThumbnailUrl(b)[|ImagePrefix| + k];
      }
    }
  }

  /** No web-image URL is also a thumbnail URL, whatever the two ids. */
  lemma WebAndThumbnailUrlsDiffer(a: string, b: string)
    ensures WebUrl(a) != ThumbnailUrl(b)
  {
    var w, t := WebUrl(a), ThumbnailUrl(b);
    // both end in "b=true"; the character before differs ('e' against 'm')
    assert w[|w| - 7] == WebSuffix[|WebSuffix| - 7] == 'e';
    assert t[|t| - 7] == ThumbSuffix[|ThumbSuffix| - 7] == 'm';
  }

  /** What `getAlbumInfo` returns when the request fails. */
  const ErrorAlbum := AlbumResponse("", "Error loading album", Some(""), false, "", [])

  /**
   * `getAlbumInfo` of both album listings: the album's detail, or, when the
   * request fails in any way, a placeholder with no assets; it never throws
   * once the configuration is present.
   */
  function AlbumInfo(detail: Fetched<AlbumResponse>): (r: AlbumResponse)
    ensures detail.Ok? ==> r == detail.value
    ensures !detail.Ok? ==> r.assets == [] && !r.shared && r.albumName == "Error loading album"
  {
    if detail.Ok? then detail.value else ErrorAlbum
  }

  /** `assets[0]?.id || ''`. */
  function CoverImage(assets: seq<Asset>): (r: string)
    ensures r == "" || (|assets| > 0 && r == assets[0].id)
    ensures |assets| > 0 && assets[0].id != "" ==> r == assets[0].id
  {
    if |assets| > 0 && assets[0].id != "" then assets[0].id else ""
  }

  /**
   * The callback both album listings map over their filtered list: the
   * album's id, name-derived title and description come from the list
   * entry, its cover and thumbnails from the detail (the placeholder's empty
   * asset list when that request failed).
   */
  function ShapeAlbum(entry: AlbumResponse, detail: Fetched<AlbumResponse>, title: string): (a: Album)
    ensures a.id == entry.id && a.title == title
    ensures a.description == OrElse(entry.description, "")
    ensures var assets := AlbumInfo(detail).assets;
      && |a.photoUrls| == |assets|
      && (forall k :: 0 <= k < |assets| ==> a.photoUrls[k] == ThumbnailUrl(assets[k].id))
      && a.coverImage == CoverImage(assets)
    ensures !detail.Ok? ==> a.photoUrls == [] && a.coverImage == ""
  {
    var assets := AlbumInfo(detail).assets;
    Album(
      entry.id,
      title,
      OrElse(entry.description, ""),
      CoverImage(assets),
      seq(|assets|, k requires 0 <= k < |assets| => ThumbnailUrl(assets[k].id)))
  }

  /**
   * `Promise.all(filtered.map(...))` of both album listings: one album per
   * entry, in the entry order; `details` answers the detail request of each
   * album id and `titleOf` is the listing's own title rule.
   */
  function ShapeAlbums(
    entries: seq<AlbumResponse>,
    details: string -> Fetched<AlbumResponse>,
    titleOf: string -> string): (r: seq<Album>)
    ensures |r| == |entries|
    ensures forall i :: 0 <= i < |r| ==>
              r[i] == ShapeAlbum(entries[i], details(entries[i].id), titleOf(entries[i].albumName))
  {
    seq(|entries|, i requires 0 <= i < |entries| =>
      ShapeAlbum(entries[i], details(entries[i].id), titleOf(entries[i].albumName)))
  }
}
