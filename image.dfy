/**
 * The image endpoint (`GET /api/image`): validates the query, asks the photo
 * service for the thumbnail or the original of one asset, shrinks and
 * re-encodes originals unless told not to, and answers with long-lived
 * caching headers. The image library is the parameter `sharp`.
 */
module ImageEndpoint {
  import opened Immich
  import opened SearchParams

  newtype byte = b: int | 0 <= b < 256
  type Bytes = seq<byte>

  /** `url.searchParams.get(name)`: the value of the first pair with that
      name, or nothing. */
  function Param(q: Query, name: string): (v: Option<string>)
    ensures v.None? <==> forall i :: 0 <= i < |q| ==> q[i].0 != name
    ensures v.Some? ==> exists i :: 0 <= i < |q| && q[i] == (name, v.value)
                           && forall j :: 0 <= j < i ==> q[j].0 != name
    decreases |q|
  {
    if q == [] then None
    else if q[0].0 == name then Some(q[0].1)
    else
      var v := Param(q[1..], name);
      assert forall i :: 1 <= i < |q| ==> q[i] == q[1..][i - 1];
      v
  }

  /** `url.searchParams.get(name) === 'true'`. */
  predicate Flag(q: Query, name: string)
    ensures Flag(q, name) <==> exists i :: 0 <= i < |q| && q[i] == (name, "true")
                                          && forall j :: 0 <= j < i ==> q[j].0 != name
  {
    Param(q, name) == Some("true")
  }

  /** How the image library fits the picture into the box. */
  datatype Fit = Inside

  /** The arguments handed to the image library: the box, the fit, whether
      it may enlarge, and the JPEG settings. */
  datatype ResizeOptions = ResizeOptions(
    width: nat, height: nat, fit: Fit, withoutEnlargement: bool, quality: nat, mozjpeg: bool)

  /** Fit inside 1920x1080 without enlarging, then JPEG at quality 80. */
  const WebResize := ResizeOptions(1920, 1080, Inside, true, 80, true)

  type Header = (string, string)

  /** The headers of every image the endpoint returns. */
  const ImageHeaders: seq<Header> := [
    ("Content-Type", "image/jpeg"),
    ("Cache-Control", "max-age=604800, immutable"),
    ("Access-Control-Allow-Origin", "*")
  ]

  /** An image response. */
  datatype Image = Image(headers: seq<Header>, body: Bytes)

  const MissingPhotoId := HttpError(400, "Missing photoId parameter")
  const ConfigurationError := HttpError(500, "Server configuration error")
  const InternalError := HttpError(500, "Internal server error")

  /** The photo-service URL of an asset's thumbnail or of its original. */
  function UpstreamUrl(base: string, photoId: string, isThumb: bool): (url: string)
    ensures |url| == |base| + 12 + |photoId| + (if isThumb then 10 else 9)
    ensures url[..|base|] == base && url[|base|..|base| + 12] == "/api/assets/"
    ensures url[|base| + 12..|base| + 12 + |photoId|] == photoId
    ensures isThumb <==> url[|base| + 12 + |photoId|..] == "/thumbnail"
    ensures !isThumb <==> url[|base| + 12 + |photoId|..] == "/original"
  {
    base + "/api/assets/" + photoId + (if isThumb then "/thumbnail" else "/original")
  }

  /** Distinct ids or distinct kinds give distinct URL strings; what the
      photo service makes of a string is not part of this model. */
  lemma UpstreamUrlsAreDistinct(base: string, a: string, b: string, ta: bool, tb: bool)
    ensures UpstreamUrl(base, a, ta) == UpstreamUrl(base, b, tb) ==> ta == tb && a == b
  {
    var u, v := UpstreamUrl(base, a, ta), UpstreamUrl(base, b, tb);
    // "/thumbnail" and "/original" both end in 'l'; the character before differs
    assert u[|u| - 2] == (if ta then 'i' else 'a');
    assert v[|v| - 2] == (if tb then 'i' else 'a');
    if u == v {
      var prefix := base + "/api/assets/";
      assert |a| == |b|;
      forall k | 0 <= k < |a| ensures a[k] == b[k] {
        assert a[k] == u[|prefix| + k];
        assert b[k] == v[|prefix| + k];
      }
    }
  }

  /**
   * `GET`. `fetch` answers the request for a photo-service URL with the
   * image bytes; `sharp` resizes and re-encodes bytes, or fails.
   */
  function Get(
    q: Query,
    config: Config,
    fetch: string -> Fetched<Bytes>,
    sharp: (Bytes, ResizeOptions) -> Option<Bytes>): (r: Outcome<Image>)
    ensures !Truthy(Param(q, "photoId")) <==> r == Thrown(MissingPhotoId)
    ensures Truthy(Param(q, "photoId")) && !Configured(config) <==> r == Thrown(ConfigurationError)
    ensures r.Thrown? ==> r.error in {MissingPhotoId, ConfigurationError, InternalError}
    ensures Truthy(Param(q, "photoId")) && Configured(config) ==>
              var upstream := fetch(UpstreamUrl(config.immichUrl.value, Param(q, "photoId").value, Flag(q, "isThumb")));
              var passThrough := Flag(q, "isThumb") || Flag(q, "fullRes");
              && (r.Thrown? ==> r.error == InternalError)
              && (!upstream.Ok? ==> r == Thrown(InternalError))
              && (upstream.Ok? && passThrough ==> r == Done(Image(ImageHeaders, upstream.value)))
              && (upstream.Ok? && !passThrough ==>
                    (r.Done? <==> sharp(upstream.value, WebResize).Some?)
                    && (r.Done? ==> r.value == Image(ImageHeaders, sharp(upstream.value, WebResize).value)))
    ensures r.Done? ==>
              && r.value.headers == ImageHeaders
              && Truthy(Param(q, "photoId")) && Configured(config)
              && var upstream := fetch(UpstreamUrl(config.immichUrl.value, Param(q, "photoId").value, Flag(q, "isThumb")));
                 && upstream.Ok?
                 && if Flag(q, "isThumb") || Flag(q, "fullRes") then r.value.body == upstream.value
                    else sharp(upstream.value, WebResize) == Some(r.value.body)
  {
    var photoId := Param(q, "photoId");
    var isThumb := Flag(q, "isThumb");
    var fullRes := Flag(q, "fullRes");
    if !Truthy(photoId) then Thrown(MissingPhotoId)
    else if !Configured(config) then Thrown(ConfigurationError)
    else
      match fetch(UpstreamUrl(config.immichUrl.value, photoId.value, isThumb))
      case Ok(bytes) =>
        if !isThumb && !fullRes then
          match sharp(bytes, WebResize)
          case Some(resized) => Done(Image(ImageHeaders, resized))
          case None => Thrown(InternalError)
        else
          Done(Image(ImageHeaders, bytes))
      case NotOk(_) =>
        // the status thrown inside the `try` is replaced by its `catch`
        Thrown(InternalError)
      case Failed => Thrown(InternalError)
  }

  /** Without a photo id the answer is the same whatever the configuration,
      the photo service and the image library: no request is made. */
  lemma MissingPhotoIdMakesNoRequest(
    q: Query,
    c1: Config, c2: Config,
    f1: string -> Fetched<Bytes>, f2: string -> Fetched<Bytes>,
    s1: (Bytes, ResizeOptions) -> Option<Bytes>, s2: (Bytes, ResizeOptions) -> Option<Bytes>)
    requires !Truthy(Param(q, "photoId"))
    ensures Get(q, c1, f1, s1) == Get(q, c2, f2, s2) == Thrown(MissingPhotoId)
  {
  }

  /** The photo service is asked for one URL only: two services that agree
      on it give the same answer. */
  lemma OnlyUpstreamUrlIsRequested(
    q: Query,
    config: Config,
    f1: string -> Fetched<Bytes>, f2: string -> Fetched<Bytes>,
    sharp: (Bytes, ResizeOptions) -> Option<Bytes>)
    requires Truthy(Param(q, "photoId")) && Configured(config)
    requires var url := UpstreamUrl(config.immichUrl.value, Param(q, "photoId").value, Flag(q, "isThumb"));
             f1(url) == f2(url)
    ensures Get(q, config, f1, sharp) == Get(q, config, f2, sharp)
  {
  }

  /** A failed upstream request, whatever its status, is a 500. */
  lemma UpstreamFailureIsInternalError(
    q: Query,
    config: Config,
    fetch: string -> Fetched<Bytes>,
    sharp: (Bytes, ResizeOptions) -> Option<Bytes>)
    requires Truthy(Param(q, "photoId")) && Configured(config)
    requires !fetch(UpstreamUrl(config.immichUrl.value, Param(q, "photoId").value, Flag(q, "isThumb"))).Ok?
    ensures Get(q, config, fetch, sharp) == Thrown(InternalError)
  {
  }

  /** A flag is set only by the exact value `true`, and only its first
      occurrence counts. */
  lemma FlagNeedsExactTrue()
    ensures !Flag([("isThumb", "TRUE")], "isThumb")
    ensures !Flag([("isThumb", "1")], "isThumb")
    ensures !Flag([("isThumb", "false"), ("isThumb", "true")], "isThumb")
    ensures Flag([("isThumb", "true"), ("isThumb", "false")], "isThumb")
  {
  }

  /** Any non-empty id is accepted and goes into the path as it is: with
      `isThumb=true` the endpoint requests that id's thumbnail URL and
      answers with the response's body as an image. */
  lemma AnyIdIsRequested(
    config: Config,
    fetch: string -> Fetched<Bytes>,
    sharp: (Bytes, ResizeOptions) -> Option<Bytes>,
    id: string)
    requires Configured(config) && id != ""
    ensures var upstream := fetch(UpstreamUrl(config.immichUrl.value, id, true));
      upstream.Ok? ==>
        Get([("photoId", id), ("isThumb", "true")], config, fetch, sharp)
          == Done(Image(ImageHeaders, upstream.value))
  {
    var q: Query := [("photoId", id), ("isThumb", "true")];
    assert Param(q, "photoId") == Some(id);
    assert Param(q, "isThumb") == Some("true");
  }

  /** The id is not validated beyond being non-empty: `photoId=../albums#`
      with `isThumb=true` makes the endpoint request
      `<base>/api/assets/../albums#/thumbnail`, which names no asset, and
      answer with that response's body as an image. The id is a parameter,
      not a literal in the body, so that the solver does not unfold it
      through every definition it meets. */
  lemma PhotoIdIsNotValidated(
    config: Config,
    fetch: string -> Fetched<Bytes>,
    sharp: (Bytes, ResizeOptions) -> Option<Bytes>,
    id: string)
    requires Configured(config) && id == "../albums#"
    ensures var url := config.immichUrl.value + "/api/assets/../albums#/thumbnail";
      fetch(url).Ok? ==>
        Get([("photoId", id), ("isThumb", "true")], config, fetch, sharp)
          == Done(Image(ImageHeaders, fetch(url).value))
  {
    var base := config.immichUrl.value;
    assert UpstreamUrl(base, id, true) == base + "/api/assets/../albums#/thumbnail" by {
      assert UpstreamUrl(base, id, true) == base + "/api/assets/" + id + "/thumbnail";
    }
    AnyIdIsRequested(config, fetch, sharp, id);
  }

  /** An asset id that reads back unchanged from the query of a URL. */
  predicate PlainId(id: string)
  {
    '&' !in id && '#' !in id && '%' !in id && '+' !in id
  }

  /** The query of an image URL built for an asset is `photoId=<id>`
      followed by the flag. */
  lemma ImageUrlQueryString(id: string, flag: string)
    requires PlainId(id) && (flag == "isThumb" || flag == "isWeb")
    ensures QueryOf(ImagePrefix + id + "&" + flag + "=true") == "photoId" + "=" + id + "&" + flag + "=" + "true"
  {
    var x := "photoId" + "=" + id + "&" + flag + "=" + "true";
    assert ImagePrefix + id + "&" + flag + "=true" == "/api/image" + "?" + x + [];
    QueryOfUrl("/api/image", x, []);
  }

  /** The query of an image URL built for an asset reads back as the id
      and the one flag the URL carries. */
  lemma ImageUrlQuery(id: string, flag: string)
    requires PlainId(id) && (flag == "isThumb" || flag == "isWeb")
    ensures ParseQuery(QueryOf(ImagePrefix + id + "&" + flag + "=true")) == [("photoId", id), (flag, "true")]
  {
    ImageUrlQueryString(id, flag);
    ImageQueryPairs(id, flag);
  }

  /** `photoId=<id>&<flag>=true` reads back as its two pairs. */
  lemma ImageQueryPairs(id: string, flag: string)
    requires PlainId(id) && (flag == "isThumb" || flag == "isWeb")
    ensures ParseQuery("photoId" + "=" + id + "&" + flag + "=" + "true") == [("photoId", id), (flag, "true")]
  {
    ParseTwoPairs("photoId", id, flag, "true");
  }

  /** A thumbnail URL reads back as the asset id with `isThumb` set. */
  lemma ThumbnailUrlParams(id: string)
    requires PlainId(id)
    ensures var q := ParseQuery(QueryOf(ThumbnailUrl(id)));
      Param(q, "photoId") == Some(id) && Flag(q, "isThumb")
  {
    assert ThumbnailUrl(id) == ImagePrefix + id + "&" + "isThumb" + "=true";
    ImageUrlQuery(id, "isThumb");
    var q: Query := [("photoId", id), ("isThumb", "true")];
    assert Param(q, "photoId") == Some(id);
    assert Param(q, "isThumb") == Some("true");
  }

  /** A web-image URL reads back as the asset id with neither `isThumb`
      nor `fullRes` set. */
  lemma WebUrlParams(id: string)
    requires PlainId(id)
    ensures var q := ParseQuery(QueryOf(WebUrl(id)));
      Param(q, "photoId") == Some(id) && !Flag(q, "isThumb") && !Flag(q, "fullRes")
  {
    assert WebUrl(id) == ImagePrefix + id + "&" + "isWeb" + "=true";
    ImageUrlQuery(id, "isWeb");
    var q: Query := [("photoId", id), ("isWeb", "true")];
    assert Param(q, "photoId") == Some(id);
    assert Param(q, "isThumb") == None;
    assert Param(q, "fullRes") == None;
  }

  /** A thumbnail URL handed out by the album listings and the home page
      makes the endpoint fetch that asset's thumbnail and return its bytes
      unchanged; an empty id is refused with a 400. */
  lemma ServingThumbnailUrl(
    id: string,
    config: Config,
    fetch: string -> Fetched<Bytes>,
    sharp: (Bytes, ResizeOptions) -> Option<Bytes>)
    requires PlainId(id) && Configured(config)
    ensures var r := Get(ParseQuery(QueryOf(ThumbnailUrl(id))), config, fetch, sharp);
      var upstream := fetch(UpstreamUrl(config.immichUrl.value, id, true));
      && (id == "" ==> r == Thrown(MissingPhotoId))
      && (id != "" && upstream.Ok? ==> r == Done(Image(ImageHeaders, upstream.value)))
      && (id != "" && !upstream.Ok? ==> r == Thrown(InternalError))
  {
    ThumbnailUrlParams(id);
  }

  /** A web-image URL of the home page carries `isWeb`, which the endpoint
      does not read: it fetches the original and returns it resized to fit
      1920x1080. */
  lemma ServingWebUrl(
    id: string,
    config: Config,
    fetch: string -> Fetched<Bytes>,
    sharp: (Bytes, ResizeOptions) -> Option<Bytes>)
    requires PlainId(id) && id != "" && Configured(config)
    ensures var r := Get(ParseQuery(QueryOf(WebUrl(id))), config, fetch, sharp);
      var upstream := fetch(UpstreamUrl(config.immichUrl.value, id, false));
      && (upstream.Ok? && sharp(upstream.value, WebResize).Some? ==>
            r == Done(Image(ImageHeaders, sharp(upstream.value, WebResize).value)))
      && (!upstream.Ok? || sharp(upstream.value, WebResize).None? ==> r == Thrown(InternalError))
  {
    WebUrlParams(id);
  }
}
