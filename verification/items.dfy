/** The items the page sends for roasting, shaped from the music-streaming
    API's replies (src/app/page.tsx, lines 283-291, 312-315 and 319). Only
    the fields the page reads are modelled. */
module Items {
  import opened Wrappers
  import opened Text

  /** One entry of an `images` array; `url` is absent when the API omits it. */
  datatype Image = Image(url: Option<string>)

  /** An album as embedded in a track; `images` may be absent. */
  datatype Album = Album(images: Option<seq<Image>>)

  /** An entry of the top-artists reply. */
  datatype Artist = Artist(name: string, images: Option<seq<Image>>)

  /** An entry of the top-tracks reply. */
  datatype Track = Track(name: string, album: Option<Album>)

  /** An artist as listed on a playlist track. */
  datatype ArtistRef = ArtistRef(name: string)

  /** The track of a playlist entry. */
  datatype PlaylistTrack = PlaylistTrack(name: string, artists: seq<ArtistRef>, album: Option<Album>)

  /** An entry of the playlist-tracks reply; `track` is null for entries the
      service no longer resolves. */
  datatype PlaylistEntry = PlaylistEntry(track: Option<PlaylistTrack>)

  /** What the page roasts: a display name and an image URL ("" for none). */
  datatype Item = Item(name: string, image: string)

  const NameSeparator: string := ", "
  const ByWord: string := " by "

  /** `images?.[0]?.url || ""`: the first image's URL, or "" when there is no
      array, the array is empty, or its first entry has no URL. */
  function FirstImageUrl(images: Option<seq<Image>>): (url: string)
    ensures url != "" ==> images.Some? && |images.value| > 0
                          && images.value[0].url == Some(url)
    ensures images.Some? && |images.value| > 0 && images.value[0].url.Some?
            ==> url == images.value[0].url.value
  {
    if images.Some? && |images.value| > 0 then images.value[0].url.GetOr("") else ""
  }

  /** `album?.images?.[0]?.url || ""`. */
  function AlbumImageUrl(album: Option<Album>): (url: string)
    ensures url != "" ==> album.Some? && album.value.images.Some? && |album.value.images.value| > 0
                          && album.value.images.value[0].url == Some(url)
    ensures album.None? ==> url == ""
    ensures album.Some? && album.value.images.Some? && |album.value.images.value| > 0
            && album.value.images.value[0].url.Some?
            ==> url == album.value.images.value[0].url.value
  {
    if album.Some? then FirstImageUrl(album.value.images) else ""
  }

  /** An artist item keeps the artist's name; a non-empty image is the URL
      of the artist's first image. */
  function ArtistItem(a: Artist): (item: Item)
    ensures item.name == a.name
    ensures item.image != "" ==> a.images.Some? && |a.images.value| > 0
                                 && a.images.value[0].url == Some(item.image)
    ensures a.images.Some? && |a.images.value| > 0 && a.images.value[0].url.Some?
            ==> item.image == a.images.value[0].url.value
  {
    Item(a.name, FirstImageUrl(a.images))
  }

  /** A track item keeps the track's name; a non-empty image is the URL of
      the first image of the track's album. */
  function TrackItem(t: Track): (item: Item)
    ensures item.name == t.name
    ensures item.image != "" ==> t.album.Some? && t.album.value.images.Some?
                                 && |t.album.value.images.value| > 0
                                 && t.album.value.images.value[0].url == Some(item.image)
    ensures t.album.Some? && t.album.value.images.Some? && |t.album.value.images.value| > 0
            && t.album.value.images.value[0].url.Some?
            ==> item.image == t.album.value.images.value[0].url.value
  {
    Item(t.name, AlbumImageUrl(t.album))
  }

  /** User mode: all artist items, then all track items, each in API order. */
  function UserItems(artists: seq<Artist>, tracks: seq<Track>): (r: seq<Item>)
    ensures |r| == |artists| + |tracks|
    ensures forall i :: 0 <= i < |artists| ==> r[i] == ArtistItem(artists[i])
    ensures forall j :: 0 <= j < |tracks| ==> r[|artists| + j] == TrackItem(tracks[j])
  {
    seq(|artists|, i requires 0 <= i < |artists| => ArtistItem(artists[i]))
    + seq(|tracks|, j requires 0 <= j < |tracks| => TrackItem(tracks[j]))
  }

  /** `item.track.name + " by " + item.track.artists[0].name`, with the
      album image. None stands for the TypeError the page raises when the
      track is null or lists no artist. */
  function PlaylistItem(e: PlaylistEntry): (r: Option<Item>)
    ensures r.Some? <==> e.track.Some? && |e.track.value.artists| > 0
    ensures r.Some? ==> r.value.image == AlbumImageUrl(e.track.value.album)
    ensures r.Some? ==> |r.value.name| == |e.track.value.name| + |ByWord| + |e.track.value.artists[0].name|
                        && r.value.name[..|e.track.value.name|] == e.track.value.name
                        && r.value.name[|e.track.value.name|..|e.track.value.name| + |ByWord|] == ByWord
                        && r.value.name[|e.track.value.name| + |ByWord|..] == e.track.value.artists[0].name
  {
    match e.track
    case None => None
    case Some(t) =>
      if |t.artists| == 0 then None
      else
        var name := t.name + ByWord + t.artists[0].name;
        assert name[..|t.name|] == t.name;
        assert name[|t.name|..|t.name| + |ByWord|] == ByWord;
        assert name[|t.name| + |ByWord|..] == t.artists[0].name;
        Some(Item(name, AlbumImageUrl(t.album)))
  }

  /** Playlist mode: one item per entry, in API order; the whole mapping
      fails as soon as one entry cannot be shaped. */
  function PlaylistItems(entries: seq<PlaylistEntry>): (r: Option<seq<Item>>)
    ensures r.Some? <==> forall i :: 0 <= i < |entries| ==> PlaylistItem(entries[i]).Some?
    ensures r.Some? ==> |r.value| == |entries|
    ensures r.Some? ==> forall i :: 0 <= i < |entries| ==> Some(r.value[i]) == PlaylistItem(entries[i])
    decreases |entries|
  {
    if |entries| == 0 then Some([])
    else
      match (PlaylistItem(entries[0]), PlaylistItems(entries[1..]))
      case (Some(first), Some(rest)) => Some([first] + rest)
      case _ => None
  }

  /** The first image of `images` exists and has a non-empty URL. */
  predicate HasFirstUrl(images: Option<seq<Image>>) {
    images.Some? && |images.value| > 0 && images.value[0].url.Some? && images.value[0].url.value != ""
  }

  /** An item is left without an image exactly when the API gave no usable
      first-image URL: `|| ""` replaces nothing else. */
  lemma ItemImageMissing(a: Artist, t: Track)
    ensures ArtistItem(a).image == "" <==> !HasFirstUrl(a.images)
    ensures TrackItem(t).image == "" <==> t.album.None? || !HasFirstUrl(t.album.value.images)
  {
  }

  /** Playlist mode shapes an item's image exactly as user mode shapes a
      track's: from the first image of the track's album. */
  lemma PlaylistImageLikeTrackImage(e: PlaylistEntry)
    requires PlaylistItem(e).Some?
    ensures PlaylistItem(e).value.image == TrackItem(Track(e.track.value.name, e.track.value.album)).image
  {
  }

  function Names(items: seq<Item>): (names: seq<string>)
    ensures |names| == |items|
    ensures forall i :: 0 <= i < |items| ==> names[i] == items[i].name
  {
    seq(|items|, i requires 0 <= i < |items| => items[i].name)
  }

  /** `allItems.map(item => item.name).join(", ")`. */
  function NamesList(items: seq<Item>): (list: string)
    ensures |items| == 0 ==> list == ""
    ensures |items| > 0 ==> |items[0].name| <= |list| && list[..|items[0].name|] == items[0].name
  {
    Join(Names(items), NameSeparator)
  }

  /** The names list of no items is empty, and of one item is its name. */
  lemma NamesListSmall(items: seq<Item>)
    ensures |items| == 0 ==> NamesList(items) == ""
    ensures |items| == 1 ==> NamesList(items) == items[0].name
  {
  }

  /** The names list of two item lists is their lists joined by ", ". */
  lemma NamesListAppend(a: seq<Item>, b: seq<Item>)
    requires |a| > 0 && |b| > 0
    ensures NamesList(a + b) == NamesList(a) + NameSeparator + NamesList(b)
  {
    assert Names(a + b) == Names(a) + Names(b);
    JoinAppend(Names(a), Names(b), NameSeparator);
  }

  /** Every item's name appears verbatim in the names list. */
  lemma NamesListContainsEach(items: seq<Item>, k: int)
    requires 0 <= k < |items|
    ensures IsInfix(items[k].name, NamesList(items))
  {
    JoinContainsEach(Names(items), NameSeparator, k);
  }
}
