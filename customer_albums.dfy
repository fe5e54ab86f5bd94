/**
 * The customer listing (`/customer-albums`): every shared album whose name
 * carries the `*customer*` marker, with the marker, in any letter case,
 * taken out of its title and the title trimmed.
 */
module CustomerAlbums {
  import opened JsText
  import opened JsArray
  import opened Immich

  const Marker := "*customer*"

  /** The listing's filter: `album.shared === true &&
      album.albumName.includes('*customer*')`, a case-sensitive test. */
  predicate Listed(album: AlbumResponse)
    ensures Listed(album) ==> |album.albumName| >= |Marker|
    ensures Listed(album) <==>
              && album.shared
              && exists i :: 0 <= i <= |album.albumName| - |Marker| && Marker <= album.albumName[i..]
  {
    album.shared && Includes(album.albumName, Marker)
  }

  /** `albumName.replace` of the global, case-insensitive regular expression
      for the literal `*customer*` by `''`, then `trim`: one left-to-right
      deletion pass of the marker in any letter case, then trimming. */
  function Title(albumName: string): (title: string)
    ensures |title| > 0 ==> !IsWhiteSpace(title[0]) && !IsWhiteSpace(title[|title| - 1])
    ensures |title| <= |albumName|
  {
    Trim(RemoveAll(albumName, Marker, true))
  }

  /** A name without the marker in any letter case is only trimmed. */
  lemma TitleWithoutMarker(albumName: string)
    requires !Occurs(albumName, Marker, true)
    ensures Title(albumName) == Trim(albumName)
  {
    RemoveAllUnchanged(albumName, Marker, true);
  }

  /**
   * `getCustomerAlbumList`. `list` is the answer to the album-list request
   * and `details` the answer to each album's detail request.
   */
  function GetCustomerAlbumList(
    config: Config,
    list: Fetched<seq<AlbumResponse>>,
    details: string -> Fetched<AlbumResponse>): (r: Outcome<seq<Album>>)
    ensures !Configured(config) ==> r == Thrown(HttpError(500, "Server configuration error"))
    ensures Configured(config) && !list.Ok? ==> r == Thrown(HttpError(500, "Failed to fetch albums"))
    ensures r.Done? <==> Configured(config) && list.Ok?
    ensures r.Done? ==>
              var listed := Filter(list.value, Listed);
              && |r.value| == |listed|
              && forall i :: 0 <= i < |listed| ==>
                   && r.value[i].id == listed[i].id
                   && r.value[i].title == Title(listed[i].albumName)
  {
    if !Configured(config) then
      Thrown(HttpError(500, "Server configuration error"))
    else if !list.Ok? then
      Thrown(HttpError(500, "Failed to fetch albums"))
    else
      Done(ShapeAlbums(Filter(list.value, Listed), details, Title))
  }

  /** Every listed album comes from a shared album of the list whose name
      holds `*customer*` exactly, with that album's id and cleaned name. */
  lemma CustomerAlbumsAreMarkedShared(
    config: Config,
    list: Fetched<seq<AlbumResponse>>,
    details: string -> Fetched<AlbumResponse>,
    i: nat)
    requires GetCustomerAlbumList(config, list, details).Done?
    requires i < |GetCustomerAlbumList(config, list, details).value|
    ensures var a := GetCustomerAlbumList(config, list, details).value[i];
      exists j :: 0 <= j < |list.value|
        && list.value[j].shared
        && Includes(list.value[j].albumName, Marker)
        && a.id == list.value[j].id
        && a.title == Title(list.value[j].albumName)
  {
    var listed := Filter(list.value, Listed);
    assert listed[i] in list.value;
    var j :| 0 <= j < |list.value| && list.value[j] == listed[i];
  }

  /** Each album's thumbnails are its detail's assets, one URL per asset in
      asset order, and its cover the first asset; an album whose detail
      request failed is still listed, with no thumbnails and no cover. */
  lemma CustomerAlbumPhotos(
    config: Config,
    list: Fetched<seq<AlbumResponse>>,
    details: string -> Fetched<AlbumResponse>,
    i: nat)
    requires GetCustomerAlbumList(config, list, details).Done?
    requires i < |GetCustomerAlbumList(config, list, details).value|
    ensures var a := GetCustomerAlbumList(config, list, details).value[i];
      var entry := Filter(list.value, Listed)[i];
      && a.description == OrElse(entry.description, "")
      && (details(entry.id).Ok? ==>
            var assets := details(entry.id).value.assets;
            && |a.photoUrls| == |assets|
            && (forall k :: 0 <= k < |assets| ==> a.photoUrls[k] == ThumbnailUrl(assets[k].id))
            && (|assets| > 0 && assets[0].id != "" ==> a.coverImage == assets[0].id)
            && (|assets| == 0 || assets[0].id == "" ==> a.coverImage == ""))
      && (!details(entry.id).Ok? ==> a.photoUrls == [] && a.coverImage == "")
  {
  }

  /** The filter only knows the lower-case marker, so an album marked
      `*Customer*` is not listed. */
  lemma FilterIsCaseSensitive(album: AlbumResponse)
    requires album.shared && album.albumName == "*Customer*"
    ensures !Listed(album)
  {
    forall i: nat | i <= |album.albumName| ensures !MatchAt(album.albumName, Marker, i, false) {
      if i == 0 {
        assert !SameChar(album.albumName[0 + 1], Marker[1], false);
      }
    }
  }

  /** The deletion pass on `*customer*Ann*CUSTOMER*` leaves `Ann`.
      The name is a parameter, not a literal in the body, so that the
      solver does not unfold the literal through every definition it meets. */
  lemma RemoveMarkersAroundAnn(name: string)
    requires name == "*customer*Ann*CUSTOMER*"
    ensures RemoveAll(name, Marker, true) == "Ann"
  {
    var rest := name[10..];
    assert MatchAt(rest[3..], Marker, 0, true);
    assert RemoveAll(rest[3..], Marker, true) == "";
    assert !SameChar(rest[0 + 0], Marker[0], true);
    assert !SameChar(rest[1 + 0], Marker[0], true);
    assert !SameChar(rest[2 + 0], Marker[0], true);
    RemoveAllKeepsPrefix(rest, Marker, true, 3);
    assert MatchAt(name, Marker, 0, true);
  }

  /** A name whose deletion pass leaves a string that neither starts nor
      ends with white space is titled with that string. */
  lemma TitleOfStripped(name: string, stripped: string)
    requires RemoveAll(name, Marker, true) == stripped
    requires |stripped| > 0 ==> !IsWhiteSpace(stripped[0]) && !IsWhiteSpace(stripped[|stripped| - 1])
    ensures Title(name) == stripped
  {
    TrimUnchanged(stripped);
  }

  /** The title of `*customer*Ann*CUSTOMER*` is `Ann`.
      The name is a parameter, not a literal in the body, so that the
      solver does not unfold the literal through every definition it meets. */
  lemma TitleOfAnn(name: string)
    requires name == "*customer*Ann*CUSTOMER*"
    ensures Title(name) == "Ann"
  {
    RemoveMarkersAroundAnn(name);
    TitleOfStripped(name, "Ann");
  }

  /** The title rule removes every letter case of the marker: a listed album
      named `*customer*Ann*CUSTOMER*` is titled `Ann`. Any album with that
      name will do, so the album is a parameter. */
  lemma TitleStripsAnyCase(album: AlbumResponse)
    requires album.shared && album.albumName == "*customer*Ann*CUSTOMER*"
    ensures Listed(album)
    ensures Title(album.albumName) == "Ann"
  {
    assert MatchAt(album.albumName, Marker, 0, false);
    TitleOfAnn(album.albumName);
  }

  /** The title of `*cus*customer*tomer*` is the marker itself.
      The name is a parameter, not a literal in the body, so that the
      solver does not unfold the literal through every definition it meets. */
  lemma TitleOfSurvivor(name: string)
    requires name == "*cus*customer*tomer*"
    ensures Title(name) == Marker
  {
    CustomerMarkerCanSurvive(name, Marker);
    TitleOfStripped(name, Marker);
  }

  /** The marker includes itself. */
  lemma MarkerIncludesMarker()
    ensures Includes(Marker, Marker)
  {
    assert MatchAt(Marker, Marker, 0, false);
  }

  /** A cleaned title can still hold the marker: a listed album named
      `*cus*customer*tomer*` is titled `*customer*`. Any album with that
      name will do, so the album is a parameter. */
  lemma TitleCanKeepMarker(album: AlbumResponse)
    requires album.shared && album.albumName == "*cus*customer*tomer*"
    ensures Listed(album)
    ensures Title(album.albumName) == Marker
    ensures Includes(Title(album.albumName), Marker)
  {
    assert MatchAt(album.albumName, Marker, 4, false);
    TitleOfSurvivor(album.albumName);
    MarkerIncludesMarker();
  }
}
