/**
 * The home page (`/`): the photos of every album whose name mentions
 * "people" or "landscape", one list after the other. Any failure degrades to
 * fewer photos, never to an error.
 */
module Home {
  import opened JsText
  import opened JsArray
  import opened Immich

  /** The mapping of one asset of an album's detail to a `Photo`: the title
      falls back to "No date" and the description to the capture time and
      then to "No description available", so neither is ever empty. */
  function ToPhoto(asset: Asset): (p: Photo)
    ensures p.url == WebUrl(asset.id) && p.thumbnailUrl == ThumbnailUrl(asset.id)
    ensures p.title != "" && p.description != ""
    ensures p.title == OrElse(asset.localDateTime, "No date")
    ensures Truthy(asset.description) ==> p.description == asset.description.value
    ensures !Truthy(asset.description) ==> p.description == OrElse(asset.localDateTime, "No description available")
  {
    Photo(
      WebUrl(asset.id),
      ThumbnailUrl(asset.id),
      OrElse(asset.localDateTime, "No date"),
      OrElse(asset.description, OrElse(asset.localDateTime, "No description available")))
  }

  /** `getAlbumPhotos` once the configuration is present: the album's assets
      as photos, in asset order, or no photos when the request fails. */
  function GetAlbumPhotos(detail: Fetched<AlbumResponse>): (photos: seq<Photo>)
    ensures !detail.Ok? ==> photos == []
    ensures detail.Ok? ==> |photos| == |detail.value.assets|
    ensures detail.Ok? ==> forall k :: 0 <= k < |photos| ==> photos[k] == ToPhoto(detail.value.assets[k])
    ensures forall k :: 0 <= k < |photos| ==> photos[k].title != "" && photos[k].description != ""
  {
    if detail.Ok? then
      var assets := detail.value.assets;
      seq(|assets|, k requires 0 <= k < |assets| => ToPhoto(assets[k]))
    else []
  }

  /** `getAlbumList` of the home page: a missing configuration throws, any
      failed request gives no albums. */
  function GetAlbumList(config: Config, list: Fetched<seq<AlbumResponse>>): (r: Outcome<seq<AlbumResponse>>)
    ensures !Configured(config) ==> r == Thrown(HttpError(500, "Server configuration error"))
    ensures Configured(config) ==> r.Done?
    ensures Configured(config) && list.Ok? ==> r.value == list.value
    ensures Configured(config) && !list.Ok? ==> r.value == []
  {
    if !Configured(config) then Thrown(HttpError(500, "Server configuration error"))
    else if list.Ok? then Done(list.value)
    else Done([])
  }

  /** The album filter of `load`: the lower-cased name mentions "people" or
      "landscape", that is, the name mentions either word in any ASCII letter
      case; whether the album is shared is not looked at. */
  predicate Relevant(album: AlbumResponse)
    ensures Relevant(album)
        <==> Occurs(album.albumName, "people", true) || Occurs(album.albumName, "landscape", true)
  {
    LowerWord("people");
    LowerWord("landscape");
    LowerIncludesIffOccursIgnoringCase(album.albumName, "people");
    LowerIncludesIffOccursIgnoringCase(album.albumName, "landscape");
    var name := ToLowerCase(album.albumName);
    Includes(name, "people") || Includes(name, "landscape")
  }

  /** The photo lists of the given albums, one per album, in album order. */
  function AlbumPhotoLists(albums: seq<AlbumResponse>, details: string -> Fetched<AlbumResponse>): (r: seq<seq<Photo>>)
    ensures |r| == |albums|
    ensures forall i :: 0 <= i < |r| ==> r[i] == GetAlbumPhotos(details(albums[i].id))
  {
    seq(|albums|, i requires 0 <= i < |albums| => GetAlbumPhotos(details(albums[i].id)))
  }

  /** A photo with a title and a description. */
  predicate Described(p: Photo)
  {
    p.title != "" && p.description != ""
  }

  /** Flattening lists of described photos gives described photos. */
  lemma {:induction false} FlatDescribed(lists: seq<seq<Photo>>)
    requires forall i, k :: 0 <= i < |lists| && 0 <= k < |lists[i]| ==> Described(lists[i][k])
    ensures forall k :: 0 <= k < |Flat(lists)| ==> Described(Flat(lists)[k])
    decreases |lists|
  {
    if lists != [] {
      FlatDescribed(lists[1..]);
      var r := Flat(lists);
      assert r == lists[0] + Flat(lists[1..]);
      forall k | 0 <= k < |r| ensures Described(r[k]) {
        if k >= |lists[0]| {
          assert r[k] == Flat(lists[1..])[k - |lists[0]|];
        }
      }
    }
  }

  /**
   * `load`: the photos of the relevant albums, album after album. It never
   * throws: a missing configuration or a failed list request gives no
   * photos, and every photo has a title and a description.
   */
  function Load(config: Config, list: Fetched<seq<AlbumResponse>>, details: string -> Fetched<AlbumResponse>): (photos: seq<Photo>)
    ensures !Configured(config) || !list.Ok? ==> photos == []
    ensures Configured(config) && list.Ok? ==>
              |photos| == TotalLength(AlbumPhotoLists(Filter(list.value, Relevant), details))
    ensures forall k :: 0 <= k < |photos| ==> Described(photos[k])
  {
    match GetAlbumList(config, list)
    case Thrown(_) => []
    case Done(albums) =>
      var lists := AlbumPhotoLists(Filter(albums, Relevant), details);
      FlatDescribed(lists);
      Flat(lists)
  }

  /** The photo lists of two runs of albums are those of each run. */
  lemma AlbumPhotoListsAppend(a: seq<AlbumResponse>, b: seq<AlbumResponse>, details: string -> Fetched<AlbumResponse>)
    ensures AlbumPhotoLists(a + b, details) == AlbumPhotoLists(a, details) + AlbumPhotoLists(b, details)
  {
  }

  /** The photos of a list of albums are those of its first part followed by
      those of its second part. */
  lemma LoadAppend(
    config: Config,
    a: seq<AlbumResponse>,
    b: seq<AlbumResponse>,
    details: string -> Fetched<AlbumResponse>)
    ensures Load(config, Ok(a + b), details) == Load(config, Ok(a), details) + Load(config, Ok(b), details)
  {
    if Configured(config) {
      var fa, fb := Filter(a, Relevant), Filter(b, Relevant);
      var la, lb := AlbumPhotoLists(fa, details), AlbumPhotoLists(fb, details);
      calc {
        Load(config, Ok(a + b), details);
        Flat(AlbumPhotoLists(Filter(a + b, Relevant), details));
        { FilterAppend(a, b, Relevant); }
        Flat(AlbumPhotoLists(fa + fb, details));
        { AlbumPhotoListsAppend(fa, fb, details); }
        Flat(la + lb);
        { FlatAppend(la, lb); }
        Flat(la) + Flat(lb);
        Load(config, Ok(a), details) + Load(config, Ok(b), details);
      }
    }
  }

  /** The photos of a single album: its own photos when the configuration
      is present and the album is relevant, otherwise none. With `LoadAppend`
      this pins `Load` down as the photos of the relevant albums, album by
      album, in list order. */
  lemma LoadOne(config: Config, album: AlbumResponse, details: string -> Fetched<AlbumResponse>)
    ensures Load(config, Ok([album]), details)
         == if Configured(config) && Relevant(album) then GetAlbumPhotos(details(album.id)) else []
  {
    if Configured(config) {
      var xs := [album];
      assert xs[1..] == [];
      var lists := AlbumPhotoLists(Filter(xs, Relevant), details);
      if Relevant(album) {
        assert Filter(xs, Relevant) == [album];
        assert lists == [GetAlbumPhotos(details(album.id))];
        FlatOne(GetAlbumPhotos(details(album.id)));
      } else {
        assert Filter(xs, Relevant) == [];
      }
    }
  }

  /** An album whose detail request fails has no photos on its own. */
  lemma FailedAlbumAlone(config: Config, album: AlbumResponse, details: string -> Fetched<AlbumResponse>)
    requires !details(album.id).Ok?
    ensures Load(config, Ok([album]), details) == []
  {
    LoadOne(config, album, details);
  }

  /** An album whose detail request fails adds nothing and changes nothing
      for the other albums. */
  lemma FailedAlbumContributesNothing(
    config: Config,
    before: seq<AlbumResponse>,
    album: AlbumResponse,
    after: seq<AlbumResponse>,
    details: string -> Fetched<AlbumResponse>)
    requires !details(album.id).Ok?
    ensures Load(config, Ok(before + [album] + after), details) == Load(config, Ok(before + after), details)
  {
    LoadAppend(config, before + [album], after, details);
    LoadAppend(config, before, [album], details);
    LoadAppend(config, before, after, details);
    FailedAlbumAlone(config, album, details);
    assert Load(config, Ok(before), details) + [] == Load(config, Ok(before), details);
  }

  /** `people` and `landscape` are lower-case words. */
  lemma LowerWord(w: string)
    requires w == "people" || w == "landscape"
    ensures IsLower(w)
  {
  }

  /** The filter ignores letter case. */
  lemma {:induction false} RelevantIgnoresCase(album: AlbumResponse)
    ensures Relevant(album) <==> Relevant(album.(albumName := ToLowerCase(album.albumName)))
  {
    var name := ToLowerCase(album.albumName);
    assert ToLowerCase(name) == name by {
      forall i | 0 <= i < |name| ensures LowerChar(name[i]) == name[i] { }
    }
  }

  /** An album that is not shared is still looked at: `PEOPLE 2024` qualifies. */
  lemma UnsharedAlbumIsRelevant(album: AlbumResponse)
    requires !album.shared && album.albumName == "PEOPLE 2024"
    ensures Relevant(album)
  {
    assert MatchAt(ToLowerCase(album.albumName), "people", 0, false);
  }
}
