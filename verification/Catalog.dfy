/** The catalog's tracks and its two summary tables: what an album's row and an artist's are computed
    from, and how Compilations refile tracks. Tables are maps. An ID stands for the parts it is the digest of,
    so it is injective by construction. */
module Catalog {
  import opened Grouping
  import opened Options
  import opened Ordering

  type TrackId = int
  datatype AlbumId = AlbumId(albumArtist: string, title: string, path: string)
  datatype ArtistId = ArtistId(name: string)

  /** One row of the track metadata, with the path of the root its file is under. */
  datatype Track = Track(
    rootPath: string,
    trackTitle: string,
    artist: string,
    artistSort: string,
    album: string,
    albumSort: string,
    directory: string,
    tagAlbumArtist: string,
    year: Option<int>,
    disc: Option<int>,
    number: Option<int>,
    artwork: Option<int>,
    // Where the track is filed.
    albumArtist: string,
    albumArtistSort: string,
    searchText: string,
    albumId: AlbumId)

  datatype AlbumRow = AlbumRow(
    artistId: ArtistId,
    title: string,
    albumArtist: string,
    directory: string,
    titleSort: string,
    albumArtistSort: string,
    searchText: string,
    year: Option<int>,
    trackCount: nat,
    cover: Option<int>)

  datatype ArtistRow = ArtistRow(
    name: string,
    nameSort: string,
    searchText: string,
    albumCount: nat,
    trackCount: nat,
    cover: Option<int>)

  type Tracks = map<TrackId, Track>
  type Albums = map<AlbumId, AlbumRow>
  type Artists = map<ArtistId, ArtistRow>
  /** An album directory and an album title. */
  type Edition = (string, string)

  datatype Tables = Tables(tracks: Tracks, albums: Albums, artists: Artists)

  /** The text folding the catalog is built on; any functions will do. */
  datatype Texts = Texts(sortKey: string -> string, searchKey: seq<string> -> string)

  const VARIOUS_ARTISTS := "Various Artists"
  const UNKNOWN_POSITION := 2147483647

  // ---- Identity ----

  /** The text after the first `/` of an album directory, or nothing. */
  function BelowRoot(directory: string): string {
    if directory == "" then ""
    else if directory[0] == '/' then directory[1..]
    else BelowRoot(directory[1..])
  }

  function AbsoluteDirectory(rootPath: string, directory: string): string {
    rootPath + "/" + BelowRoot(directory)
  }

  /** The album a track filed under `albumArtist` is on. Without an album title the directory
      does not count: all such tracks of one artist are together. */
  function AlbumOf(track: Track, albumArtist: string): AlbumId {
    AlbumId(albumArtist, track.album,
            if track.album == "" then "" else AbsoluteDirectory(track.rootPath, track.directory))
  }

  ghost predicate Identified(tracks: Tracks) {
    forall k :: k in tracks ==> tracks[k].albumId == AlbumOf(tracks[k], tracks[k].albumArtist)
  }

  // ---- Compilations ----

  predicate Blank(text: string) {
    forall i :: 0 <= i < |text| ==> text[i] == ' '
  }

  /** A track a Compilation may refile: it has no Album Artist tag. */
  predicate Untagged(track: Track) {
    Blank(track.tagAlbumArtist)
  }

  function EditionOf(track: Track): Edition {
    (track.directory, track.album)
  }

  ghost predicate InEdition(track: Track, edition: Edition) {
    Untagged(track) && EditionOf(track) == edition
  }

  ghost function Members(tracks: Tracks, edition: Edition): set<TrackId> {
    set k | k in tracks && InEdition(tracks[k], edition)
  }

  ghost function ArtistsIn(tracks: Tracks, edition: Edition): set<string> {
    set k | k in Members(tracks, edition) && tracks[k].artist != "" :: tracks[k].artist
  }

  ghost predicate IsCompilation(tracks: Tracks, edition: Edition) {
    |ArtistsIn(tracks, edition)| > 1
  }

  function FileUnder(texts: Texts, track: Track, under: string, sort: string): Track {
    track.(albumArtist := under,
           albumArtistSort := sort,
           searchText := texts.searchKey([track.trackTitle, track.artist, track.album, under]),
           albumId := AlbumOf(track, under))
  }

  function Refiled(texts: Texts, track: Track, compilation: bool): Track {
    var under := if compilation then VARIOUS_ARTISTS else track.artist;
    var sort := if compilation then texts.sortKey(VARIOUS_ARTISTS) else track.artistSort;
    if under == track.albumArtist then track else FileUnder(texts, track, under, sort)
  }

  /** The tracks once every group in `groups` is filed where it belongs. */
  ghost function Settled(texts: Texts, tracks: Tracks, editions: set<Edition>): Tracks {
    map k | k in tracks ::
      if Untagged(tracks[k]) && EditionOf(tracks[k]) in editions
      then Refiled(texts, tracks[k], IsCompilation(tracks, EditionOf(tracks[k])))
      else tracks[k]
  }

  /** Every group a Compilation may form in: the untagged tracks that have an album. */
  ghost function AllEditions(tracks: Tracks): set<Edition> {
    set k | k in tracks && Untagged(tracks[k]) && tracks[k].album != "" :: EditionOf(tracks[k])
  }

  // ---- Summaries ----

  function OrLast(position: Option<int>): int {
    if position.Some? then position.value else UNKNOWN_POSITION
  }

  predicate DiscOrder(a: (int, int, TrackId), b: (int, int, TrackId)) {
    a.0 < b.0 || (a.0 == b.0 && (a.1 < b.1 || (a.1 == b.1 && a.2 <= b.2)))
  }

  /** The artwork of the first track, by disc and number, that has one. */
  ghost function AlbumCover(group: Tracks): Option<int> {
    var pictured := set k | k in group && group[k].artwork.Some? :: (OrLast(group[k].disc), OrLast(group[k].number), k);
    if pictured == {} then None else group[Least(pictured, DiscOrder).2].artwork
  }

  ghost function FirstYear(group: Tracks): Option<int> {
    var years := set k | k in group && group[k].year.Some? :: group[k].year.value;
    if years == {} then None else Some(MinInt(years))
  }

  /** The album of the tracks in `group`, which share an `albumId`. A column that is no aggregate is
      read from one of the tracks; `AlbumColumnsAreShared` says which one does not matter. */
  ghost function AlbumRowOf(texts: Texts, group: Tracks): (row: AlbumRow)
    requires exists k :: k in group
    ensures exists k :: k in group && row.title == group[k].album && row.albumArtist == group[k].albumArtist
    ensures row.artistId == ArtistId(row.albumArtist)
  {
    var any :| any in group;
    var directories := set k | k in group :: group[k].directory;
    var titleSorts := set k | k in group :: group[k].albumSort;
    var artistSorts := set k | k in group :: group[k].albumArtistSort;
    assert group[any].directory in directories && group[any].albumSort in titleSorts
        && group[any].albumArtistSort in artistSorts;
    AlbumRow(
      ArtistId(group[any].albumArtist),
      group[any].album,
      group[any].albumArtist,
      MinText(directories),
      MinText(titleSorts),
      MinText(artistSorts),
      texts.searchKey([group[any].album, group[any].albumArtist]),
      FirstYear(group),
      |group|,
      AlbumCover(group))
  }

  const NO_ALBUM := AlbumRow(ArtistId(""), "", "", "", "", "", "", None, 0, None)

  /** The album row of a group of tracks; no group is ever empty. */
  ghost function AlbumRowFor(texts: Texts): Tracks -> AlbumRow {
    group => if exists k :: k in group then AlbumRowOf(texts, group) else NO_ALBUM
  }

  function AlbumIdOf(track: Track): AlbumId { track.albumId }

  ghost function TotalTracks(albums: Albums): nat {
    if albums.Keys == {} then 0
    else
      var a :| a in albums.Keys;
      albums[a].trackCount + TotalTracks(albums - {a})
  }

  /** Known titles first, then by sort text, by title and by id. */
  function ShelfKey(a: (string, string, AlbumId)): seq<string> {
    [if a.1 == "" then "1" else "0", a.0, a.1, a.2.albumArtist, a.2.title, a.2.path]
  }

  predicate ShelfOrder(a: (string, string, AlbumId), b: (string, string, AlbumId)) {
    TextsLeq(ShelfKey(a), ShelfKey(b))
  }

  lemma ShelfOrderIsTotal()
    ensures TotalPreorder(ShelfOrder)
  {
    hide ShelfKey;
    forall a, b ensures ShelfOrder(a, b) || ShelfOrder(b, a) {
      TextsTotal(ShelfKey(a), ShelfKey(b));
    }
    forall a, b, c | ShelfOrder(a, b) && ShelfOrder(b, c) ensures ShelfOrder(a, c) {
      TextsTransitive(ShelfKey(a), ShelfKey(b), ShelfKey(c));
    }
  }

  /** The cover of the artist's first album, which may have none. */
  ghost function ArtistCover(group: Albums): Option<int>
    requires exists k :: k in group
  {
    ShelfOrderIsTotal();
    var any :| any in group;
    var shelf := set a | a in group :: (group[a].titleSort, group[a].title, a);
    assert (group[any].titleSort, group[any].title, any) in shelf;
    group[Least(shelf, ShelfOrder).2].cover
  }

  ghost function ArtistRowOf(texts: Texts, group: Albums): ArtistRow
    requires exists k :: k in group
  {
    var any :| any in group;
    var sorts := set a | a in group :: group[a].albumArtistSort;
    assert group[any].albumArtistSort in sorts;
    ArtistRow(
      group[any].albumArtist,
      MinText(sorts),
      texts.searchKey([group[any].albumArtist]),
      |group|,
      TotalTracks(group),
      ArtistCover(group))
  }

  const NO_ARTIST := ArtistRow("", "", "", 0, 0, None)

  ghost function ArtistRowFor(texts: Texts): Albums -> ArtistRow {
    group => if exists a :: a in group then ArtistRowOf(texts, group) else NO_ARTIST
  }

  function ArtistIdOf(album: AlbumRow): ArtistId { album.artistId }

  // ---- From scratch ----

  /** What a rebuild computes from the tracks alone. */
  ghost function Rebuilt(texts: Texts, tracks: Tracks): Tables {
    var settled := Settled(texts, tracks, AllEditions(tracks));
    var albums := AllRows(settled, AlbumIdOf, AlbumRowFor(texts));
    Tables(settled, albums, AllRows(albums, ArtistIdOf, ArtistRowFor(texts)))
  }

  /** The tables say what the tracks say. */
  ghost predicate InStep(texts: Texts, tables: Tables) {
    tables == Rebuilt(texts, tables.tracks)
  }
}
