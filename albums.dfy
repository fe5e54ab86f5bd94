/**
 * The gallery listing (`/albums`): every shared album whose name carries the
 * `**` marker, with the marker taken out of its title.
 */
module Albums {
  import opened JsText
  import opened JsArray
  import opened Immich

  const Marker := "**"

  /** The listing's filter: `album.shared === true && album.albumName.includes('**')`. */
  predicate Listed(album: AlbumResponse)
    ensures Listed(album) <==> album.shared && !NoDoubleStar(album.albumName)
  {
    NoDoubleStarIsNotIncludes(album.albumName);
    album.shared && Includes(album.albumName, Marker)
  }

  /** `albumName.replace` of the global regular expression for the literal
      `**` by `''`: one left-to-right deletion pass of the marker; the title
      keeps everything else and is not trimmed. */
  function Title(albumName: string): (title: string)
    ensures !Includes(title, Marker)
    ensures |title| <= |albumName|
    ensures title == albumName <==> !Includes(albumName, Marker)
  {
    RemoveDoubleStarLeavesNone(albumName);
    NoDoubleStarIsNotIncludes(RemoveAll(albumName, Marker, false));
    RemoveAllUnchanged(albumName, Marker, false);
    RemoveAll(albumName, Marker, false)
  }

  /**
   * `getAlbumList`. `list` is the answer to the album-list request and
   * `details` the answer to each album's detail request.
   */
  function GetAlbumList(
    config: Config,
    list: Fetched<seq<AlbumResponse>>,
    details: string -> Fetched<AlbumResponse>): (r: Outcome<seq<Album>>)
    ensures !Configured(config) ==> r == Thrown(HttpError(500, "Server configuration error"))
    ensures Configured(config) && !list.Ok? ==> r == Thrown(HttpError(500, "Failed to fetch albums"))
    ensures r.Done? <==> Configured(config) && list.Ok?
    ensures r.Done? ==>
              var listed := Filter(list.value, Listed);
              && |r.value| == |listed|
              && forall i :: 0 <= i < |listed| ==>
                   && r.value[i].id == listed[i].id
                   && r.value[i].title == Title(listed[i].albumName)
                   && !Includes(r.value[i].title, Marker)
  {
    if !Configured(config) then
      Thrown(HttpError(500, "Server configuration error"))
    else if !list.Ok? then
      // a non-ok status is thrown inside the `try` and rethrown by its `catch`
      Thrown(HttpError(500, "Failed to fetch albums"))
    else
      Done(ShapeAlbums(Filter(list.value, Listed), details, Title))
  }

  /** Every listed album comes from a shared, marked album of the list, with
      that album's id and its de-marked name. */
  lemma GalleryAlbumsAreMarkedShared(
    config: Config,
    list: Fetched<seq<AlbumResponse>>,
    details: string -> Fetched<AlbumResponse>,
    i: nat)
    requires GetAlbumList(config, list, details).Done?
    requires i < |GetAlbumList(config, list, details).value|
    ensures var a := GetAlbumList(config, list, details).value[i];
      exists j :: 0 <= j < |list.value|
        && list.value[j].shared
        && Includes(list.value[j].albumName, Marker)
        && a.id == list.value[j].id
        && a.title == Title(list.value[j].albumName)
  {
    var listed := Filter(list.value, Listed);
    assert listed[i] in list.value;
    var j :| 0 <= j < |list.value| && list.value[j] == listed[i];
  }

  /** Each album's thumbnails are its detail's assets, one URL per asset in
      asset order, and its cover the first asset; an album whose detail
      request failed is still listed, with no thumbnails and no cover. */
  lemma GalleryAlbumPhotos(
    config: Config,
    list: Fetched<seq<AlbumResponse>>,
    details: string -> Fetched<AlbumResponse>,
    i: nat)
    requires GetAlbumList(config, list, details).Done?
    requires i < |GetAlbumList(config, list, details).value|
    ensures var a := GetAlbumList(config, list, details).value[i];
      var entry := Filter(list.value, Listed)[i];
      && a.description == OrElse(entry.description, "")
      && (details(entry.id).Ok? ==>
            var assets := details(entry.id).value.assets;
            && |a.photoUrls| == |assets|
            && (forall k :: 0 <= k < |assets| ==> a.photoUrls[k] == ThumbnailUrl(assets[k].id))
            && (|assets| > 0 && assets[0].id != "" ==> a.coverImage == assets[0].id)
            && (|assets| == 0 || assets[0].id == "" ==> a.coverImage == ""))
      && (!details(entry.id).Ok? ==> a.photoUrls == [] && a.coverImage == "")
  {
  }

  /** The marker is deleted but the space around it is kept. */
  lemma TitleIsNotTrimmed()
    ensures Title("** Wedding") == " Wedding"
  {
    var s := "** Wedding";
    assert MatchAt(s, Marker, 0, false);
    assert !Includes(s[2..], Marker) by {
      NoDoubleStarIsNotIncludes(s[2..]);
    }
    RemoveAllUnchanged(s[2..], Marker, false);
  }
}
