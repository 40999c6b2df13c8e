/** What the catalog's rows say, column by column: where a track is filed, what an album's row and an artist's row
    show. */
module CatalogColumns {
  import opened Catalog
  import opened Grouping
  import opened Options
  import opened Ordering

  // ---- Where a track is filed ----

  /** A track without an Album Artist tag, in this directory and with this album title. */
  ghost predicate OnEdition(track: Track, directory: string, title: string) {
    (forall c :: c in track.tagAlbumArtist ==> c == ' ') && track.directory == directory && track.album == title
  }

  /** Two of them name different artists. */
  ghost predicate TwoArtists(tracks: Tracks, directory: string, title: string) {
    exists i, j :: i in tracks && j in tracks
                   && OnEdition(tracks[i], directory, title) && OnEdition(tracks[j], directory, title)
                   && tracks[i].artist != "" && tracks[j].artist != "" && tracks[i].artist != tracks[j].artist
  }

  /** The row with its filing columns as they are for the Album Artist `under`; untouched if it has that one already. */
  ghost predicate FiledAs(texts: Texts, before: Track, row: Track, under: string, sort: string) {
    && row.albumArtist == under
    && (before.albumArtist == under ==> row == before)
    && (before.albumArtist != under ==>
          && row.albumArtistSort == sort
          && row.searchText == texts.searchKey([before.trackTitle, before.artist, before.album, under])
          && row.albumId.albumArtist == under && row.albumId.title == before.album
          && (before.album != "" ==> row.albumId.path == before.rootPath + "/" + BelowRoot(before.directory))
          && row == before.(albumArtist := row.albumArtist, albumArtistSort := row.albumArtistSort,
                            searchText := row.searchText, albumId := row.albumId))
  }

  /** Track `k` of a settled edition: under Various Artists if two of its tracks name different artists, otherwise under
      its own. */
  ghost predicate TrackFiled(texts: Texts, before: Tracks, k: TrackId, row: Track)
    requires k in before
  {
    if TwoArtists(before, before[k].directory, before[k].album)
    then FiledAs(texts, before[k], row, "Various Artists", texts.sortKey("Various Artists"))
    else FiledAs(texts, before[k], row, before[k].artist, before[k].artistSort)
  }

  /** One edition is settled, and nothing else has changed. */
  ghost predicate EditionFiled(texts: Texts, before: Tracks, after: Tracks, directory: string, title: string) {
    && after.Keys == before.Keys
    && forall k :: k in before ==>
         if OnEdition(before[k], directory, title) then TrackFiled(texts, before, k, after[k])
             else after[k] == before[k]
  }

  /** Every edition with a title is settled, and no other track has changed. */
  ghost predicate AllFiled(texts: Texts, before: Tracks, after: Tracks) {
    && after.Keys == before.Keys
    && forall k :: k in before ==>
         if before[k].album != "" && OnEdition(before[k], before[k].directory, before[k].album)
         then TrackFiled(texts, before, k, after[k])
         else after[k] == before[k]
  }

  lemma IsOnEdition(track: Track, directory: string, title: string)
    ensures OnEdition(track, directory, title) <==> InEdition(track, (directory, title))
  {
    var tag := track.tagAlbumArtist;
    if forall c :: c in tag ==> c == ' ' {
      forall i | 0 <= i < |tag| ensures tag[i] == ' ' {
        assert tag[i] in tag;
      }
    }
  }

  lemma TwoDiffer<T>(s: set<T>) returns (a: T, b: T)
    requires |s| > 1
    ensures a in s && b in s && a != b
  {
    a :| a in s;
    assert |s - {a}| > 0;
    b :| b in s - {a};
  }

  lemma MoreThanOne<T>(s: set<T>, a: T, b: T)
    requires a in s && b in s && a != b
    ensures |s| > 1
  {
    assert |s - {a}| > 0 by {
      assert b in s - {a};
    }
  }

  /** Counting the artists of an edition says whether two of them differ. */
  lemma CompilationHasTwo(tracks: Tracks, directory: string, title: string)
    ensures IsCompilation(tracks, (directory, title)) <==> TwoArtists(tracks, directory, title)
  {
    var artists := ArtistsIn(tracks, (directory, title));
    if IsCompilation(tracks, (directory, title)) {
      var a, b := TwoDiffer(artists);
      var i :| i in Members(tracks, (directory, title)) && tracks[i].artist == a && a != "";
      var j :| j in Members(tracks, (directory, title)) && tracks[j].artist == b && b != "";
      IsOnEdition(tracks[i], directory, title);
      IsOnEdition(tracks[j], directory, title);
    }
    if TwoArtists(tracks, directory, title) {
      var i, j :| i in tracks && j in tracks
                  && OnEdition(tracks[i], directory, title) && OnEdition(tracks[j], directory, title)
                  && tracks[i].artist != "" && tracks[j].artist != "" && tracks[i].artist != tracks[j].artist;
      IsOnEdition(tracks[i], directory, title);
      IsOnEdition(tracks[j], directory, title);
      assert i in Members(tracks, (directory, title)) && j in Members(tracks, (directory, title));
      MoreThanOne(artists, tracks[i].artist, tracks[j].artist);
    }
  }

  lemma RefiledIsFiled(texts: Texts, tracks: Tracks, k: TrackId, compilation: bool)
    requires k in tracks && (compilation <==> TwoArtists(tracks, tracks[k].directory, tracks[k].album))
    ensures TrackFiled(texts, tracks, k, Refiled(texts, tracks[k], compilation))
  {
    hide TwoArtists;
  }

  lemma SettledEdition(texts: Texts, tracks: Tracks, directory: string, title: string)
    ensures EditionFiled(texts, tracks, Settled(texts, tracks, {(directory, title)}), directory, title)
  {
    var after := Settled(texts, tracks, {(directory, title)});
    CompilationHasTwo(tracks, directory, title);
    hide IsCompilation, TwoArtists, TrackFiled, Refiled;
    forall k | k in tracks
      ensures if OnEdition(tracks[k], directory, title) then TrackFiled(texts, tracks, k, after[k])
        else after[k] == tracks[k]
    {
      IsOnEdition(tracks[k], directory, title);
      if OnEdition(tracks[k], directory, title) {
        RefiledIsFiled(texts, tracks, k, IsCompilation(tracks, (directory, title)));
      }
    }
  }

  lemma SettledEverywhere(texts: Texts, tracks: Tracks)
    ensures AllFiled(texts, tracks, Settled(texts, tracks, AllEditions(tracks)))
  {
    var after := Settled(texts, tracks, AllEditions(tracks));
    hide IsCompilation, TwoArtists, TrackFiled, Refiled;
    forall k | k in tracks
      ensures if tracks[k].album != "" && OnEdition(tracks[k], tracks[k].directory, tracks[k].album)
              then TrackFiled(texts, tracks, k, after[k])
              else after[k] == tracks[k]
    {
      IsOnEdition(tracks[k], tracks[k].directory, tracks[k].album);
      CompilationHasTwo(tracks, tracks[k].directory, tracks[k].album);
      if tracks[k].album != "" && OnEdition(tracks[k], tracks[k].directory, tracks[k].album) {
        assert EditionOf(tracks[k]) in AllEditions(tracks);
        RefiledIsFiled(texts, tracks, k, IsCompilation(tracks, EditionOf(tracks[k])));
      }
    }
  }

  // ---- Which album a track is on ----

  /** The path below a root is what follows the first slash. */
  lemma {:induction false} BelowRootIs(directory: string, i: nat)
    requires i <= |directory| && forall j :: 0 <= j < i ==> directory[j] != '/'
    ensures i == |directory| ==> BelowRoot(directory) == ""
    ensures i < |directory| && directory[i] == '/' ==> BelowRoot(directory) == directory[i + 1..]
    decreases |directory|
  {
    if i > 0 {
      BelowRootIs(directory[1..], i - 1);
    }
  }

  /** Two tracks are on one album exactly if they are filed under the same Album Artist with the same title, and with a
      title, in the same directory. */
  lemma SameAlbumExactly(a: Track, b: Track)
    ensures AlbumOf(a, a.albumArtist) == AlbumOf(b, b.albumArtist)
       <==> a.albumArtist == b.albumArtist && a.album == b.album
            && (a.album != "" ==>
                  a.rootPath + "/" + BelowRoot(a.directory) == b.rootPath + "/" + BelowRoot(b.directory))
  {
  }

  // ---- Order ----

  /** Texts compare by the first character that differs, and a text comes before one it begins. */
  lemma {:induction false} TextLeqIs(a: string, b: string, i: nat)
    requires i <= |a| && i <= |b| && a[..i] == b[..i]
    ensures i == |a| ==> TextLeq(a, b)
    ensures i == |b| && |b| < |a| ==> !TextLeq(a, b)
    ensures i < |a| && i < |b| && a[i] != b[i] ==> (TextLeq(a, b) <==> a[i] < b[i])
    decreases i
  {
    if i > 0 {
      assert a[..i][0] == b[..i][0];
      assert a[1..][..i - 1] == a[..i][1..] && b[1..][..i - 1] == b[..i][1..];
      TextLeqIs(a[1..], b[1..], i - 1);
    }
  }

  // ---- Album rows ----

  /** The row of album `id`: the least of the texts, the least year, how many tracks, and the cover of the first
      track by disc, number and id that has a picture. */
  ghost predicate AlbumRowSays(texts: Texts, tracks: Tracks, id: AlbumId, row: AlbumRow) {
    && row.trackCount == |set k | k in tracks && tracks[k].albumId == id|
    && row.searchText == texts.searchKey([row.title, row.albumArtist]) && row.artistId.name == row.albumArtist
    && (exists k :: k in tracks && tracks[k].albumId == id && tracks[k].directory == row.directory)
    && (exists k :: k in tracks && tracks[k].albumId == id && tracks[k].albumSort == row.titleSort)
    && (exists k :: k in tracks && tracks[k].albumId == id && tracks[k].albumArtistSort == row.albumArtistSort)
    && (forall k :: k in tracks && tracks[k].albumId == id ==>
          && TextLeq(row.directory, tracks[k].directory) && TextLeq(row.titleSort, tracks[k].albumSort)
          && TextLeq(row.albumArtistSort, tracks[k].albumArtistSort))
    && YearSays(tracks, id, row.year) && CoverSays(tracks, id, row.cover)
  }

  ghost predicate YearSays(tracks: Tracks, id: AlbumId, year: Option<int>) {
    && (year.Some? ==> exists k :: k in tracks && tracks[k].albumId == id && tracks[k].year == year)
    && forall k :: k in tracks && tracks[k].albumId == id && tracks[k].year.Some? ==>
         year.Some? && year.value <= tracks[k].year.value
  }

  ghost predicate CoverSays(tracks: Tracks, id: AlbumId, cover: Option<int>) {
    && (cover.None? ==> forall k :: k in tracks && tracks[k].albumId == id ==> tracks[k].artwork.None?)
    && (cover.Some? ==>
          exists k :: k in tracks && tracks[k].albumId == id && tracks[k].artwork == cover
                      && forall j :: j in tracks && tracks[j].albumId == id && tracks[j].artwork.Some? ==>
                           ComesFirst(tracks, k, j))
  }

  /** By disc, by number, by id; an unknown position comes last. */
  ghost predicate ComesFirst(tracks: Tracks, k: TrackId, j: TrackId)
    requires k in tracks && j in tracks
  {
    var disc, other := OrTheLast(tracks[k].disc), OrTheLast(tracks[j].disc);
    var number, otherNumber := OrTheLast(tracks[k].number), OrTheLast(tracks[j].number);
    disc < other || (disc == other && (number < otherNumber || (number == otherNumber && k <= j)))
  }

  function OrTheLast(position: Option<int>): int {
    match position
    case Some(p) => p
    case None => 0x7FFF_FFFF
  }

  lemma AlbumYear(tracks: Tracks, id: AlbumId)
    ensures YearSays(tracks, id, FirstYear(Group(tracks, AlbumIdOf, id)))
  {
    var group := Group(tracks, AlbumIdOf, id);
    var years := set k | k in group && group[k].year.Some? :: group[k].year.value;
    var year := FirstYear(group);
    forall k | k in tracks && tracks[k].albumId == id && tracks[k].year.Some?
      ensures year.Some? && year.value <= tracks[k].year.value
    {
      assert k in group && group[k].year.value in years;
    }
    if year.Some? {
      assert year.value in years;
      var k :| k in group && group[k].year.Some? && group[k].year.value == year.value;
      assert k in tracks && tracks[k].albumId == id && tracks[k].year == year;
    }
  }

  lemma DiscOrderIsTotal()
    ensures TotalPreorder(DiscOrder)
  {
  }

  ghost function Pictured(group: Tracks): set<(int, int, TrackId)> {
    set k | k in group && group[k].artwork.Some? :: (OrLast(group[k].disc), OrLast(group[k].number), k)
  }

  lemma IsPictured(group: Tracks, k: TrackId)
    requires k in group
    ensures group[k].artwork.Some? ==> (OrLast(group[k].disc), OrLast(group[k].number), k) in Pictured(group)
  {
  }

  lemma AlbumCoverIs(tracks: Tracks, id: AlbumId)
    ensures CoverSays(tracks, id, AlbumCover(Group(tracks, AlbumIdOf, id)))
  {
    var group := Group(tracks, AlbumIdOf, id);
    var pictured := Pictured(group);
    if pictured == {} {
      forall k | k in tracks && tracks[k].albumId == id ensures tracks[k].artwork.None? {
        IsPictured(group, k);
      }
    } else {
      DiscOrderIsTotal();
      var first := Least(pictured, DiscOrder);
      var k := first.2;
      assert k in group && first == (OrLast(group[k].disc), OrLast(group[k].number), k);
      forall j | j in tracks && tracks[j].albumId == id && tracks[j].artwork.Some? ensures ComesFirst(tracks, k, j) {
        IsPictured(group, j);
        assert DiscOrder(first, (OrLast(group[j].disc), OrLast(group[j].number), j));
      }
      assert tracks[k].artwork == AlbumCover(group);
    }
  }

  lemma GroupSize(tracks: Tracks, id: AlbumId)
    ensures |Group(tracks, AlbumIdOf, id)| == |set k | k in tracks && tracks[k].albumId == id|
  {
    var group := Group(tracks, AlbumIdOf, id);
    assert group.Keys == set k | k in tracks && tracks[k].albumId == id;
    assert |group| == |group.Keys|;
  }

  /** Every row of the album table says this of the tracks with its id. */
  lemma AlbumRowIs(texts: Texts, tracks: Tracks, id: AlbumId)
    requires id in AllRows(tracks, AlbumIdOf, AlbumRowFor(texts))
    ensures AlbumRowSays(texts, tracks, id, AllRows(tracks, AlbumIdOf, AlbumRowFor(texts))[id])
  {
    var group := Group(tracks, AlbumIdOf, id);
    var any := RowOfGroup(tracks, AlbumIdOf, id);
    var row := AlbumRowOf(texts, group);
    assert AllRows(tracks, AlbumIdOf, AlbumRowFor(texts))[id] == row;
    AlbumYear(tracks, id);
    AlbumCoverIs(tracks, id);
    GroupSize(tracks, id);
    AlbumTexts(texts, tracks, id);
    hide FirstYear, AlbumCover, YearSays, CoverSays;
  }

  lemma AlbumTexts(texts: Texts, tracks: Tracks, id: AlbumId)
    requires exists k :: k in Group(tracks, AlbumIdOf, id)
    ensures var row := AlbumRowOf(texts, Group(tracks, AlbumIdOf, id));
            && (exists k :: k in tracks && tracks[k].albumId == id && tracks[k].directory == row.directory)
            && (exists k :: k in tracks && tracks[k].albumId == id && tracks[k].albumSort == row.titleSort)
            && (exists k :: k in tracks && tracks[k].albumId == id && tracks[k].albumArtistSort == row.albumArtistSort)
            && (forall k :: k in tracks && tracks[k].albumId == id ==>
                  && TextLeq(row.directory, tracks[k].directory) && TextLeq(row.titleSort, tracks[k].albumSort)
                  && TextLeq(row.albumArtistSort, tracks[k].albumArtistSort))
  {
    var group := Group(tracks, AlbumIdOf, id);
    var row := AlbumRowOf(texts, group);
    hide FirstYear, AlbumCover, TextLeq;
    var directories := set k | k in group :: group[k].directory;
    var titleSorts := set k | k in group :: group[k].albumSort;
    var artistSorts := set k | k in group :: group[k].albumArtistSort;
    assert row.directory in directories && row.titleSort in titleSorts && row.albumArtistSort in artistSorts;
    var a :| a in group && group[a].directory == row.directory;
    var b :| b in group && group[b].albumSort == row.titleSort;
    var c :| c in group && group[c].albumArtistSort == row.albumArtistSort;
    assert tracks[a].albumId == id && tracks[b].albumId == id && tracks[c].albumId == id;
    forall k | k in tracks && tracks[k].albumId == id
      ensures TextLeq(row.directory, tracks[k].directory) && TextLeq(row.titleSort, tracks[k].albumSort)
      ensures TextLeq(row.albumArtistSort, tracks[k].albumArtistSort)
    {
      assert k in group;
      assert group[k].directory in directories && group[k].albumSort in titleSorts;
      assert group[k].albumArtistSort in artistSorts;
    }
  }

  // ---- Artist rows ----

  /** The row of artist `id`: the least sort text, how many albums and how many of all tracks, and the cover of the
      first album. */
  ghost predicate ArtistRowSays(texts: Texts, tracks: Tracks, albums: Albums, id: ArtistId, row: ArtistRow) {
    && row.name == id.name && row.searchText == texts.searchKey([id.name])
    && row.albumCount == |set a | a in albums && albums[a].artistId == id|
    && row.trackCount
       == |set k | k in tracks && tracks[k].albumId in albums && albums[tracks[k].albumId].artistId == id|
    && (exists a :: a in albums && albums[a].artistId == id && albums[a].albumArtistSort == row.nameSort)
    && (forall a :: a in albums && albums[a].artistId == id ==> TextLeq(row.nameSort, albums[a].albumArtistSort))
    && exists a :: a in albums && albums[a].artistId == id && albums[a].cover == row.cover
                   && forall b :: b in albums && albums[b].artistId == id ==> AlbumFirst(albums, a, b)
  }

  /** Albums with a title come first, then they are sorted by sort text, by title and by id. */
  ghost predicate AlbumFirst(albums: Albums, a: AlbumId, b: AlbumId)
    requires a in albums && b in albums
  {
    var row, other := albums[a], albums[b];
    if (row.title == "") != (other.title == "") then other.title == ""
    else if row.titleSort != other.titleSort then TextLeq(row.titleSort, other.titleSort)
    else if row.title != other.title then TextLeq(row.title, other.title)
    else if a.albumArtist != b.albumArtist then TextLeq(a.albumArtist, b.albumArtist)
    else if a.title != b.title then TextLeq(a.title, b.title)
    else TextLeq(a.path, b.path)
  }

  lemma ShelfIsFirst(albums: Albums, a: AlbumId, b: AlbumId)
    requires a in albums && b in albums
    ensures AlbumFirst(albums, a, b)
       <==> ShelfOrder((albums[a].titleSort, albums[a].title, a), (albums[b].titleSort, albums[b].title, b))
  {
    var x := ShelfKey((albums[a].titleSort, albums[a].title, a));
    var y := ShelfKey((albums[b].titleSort, albums[b].title, b));
    hide TextLeq;
    ColumnByColumn(x, y);
    assert TextLeq("0", "1") && !TextLeq("1", "0") by {
      TextLeqIs("0", "1", 0);
      TextLeqIs("1", "0", 0);
    }
  }

  /** Rows of six columns. */
  lemma ColumnByColumn(x: seq<string>, y: seq<string>)
    requires |x| == |y| == 6
    ensures TextsLeq(x, y)
       <==> if x[0] != y[0] then TextLeq(x[0], y[0])
            else if x[1] != y[1] then TextLeq(x[1], y[1])
            else if x[2] != y[2] then TextLeq(x[2], y[2])
            else if x[3] != y[3] then TextLeq(x[3], y[3])
            else if x[4] != y[4] then TextLeq(x[4], y[4])
            else TextLeq(x[5], y[5])
  {
    hide TextLeq;
    FirstColumn(x, y, 0);
    FirstColumn(x, y, 1);
    FirstColumn(x, y, 2);
    FirstColumn(x, y, 3);
    FirstColumn(x, y, 4);
    FirstColumn(x, y, 5);
    LeqItself(x[5]);
    hide TextsLeq;
    assert x[0..] == x && y[0..] == y;
  }

  lemma FirstColumn(x: seq<string>, y: seq<string>, i: nat)
    requires i < |x| == |y|
    ensures TextsLeq(x[i..], y[i..]) <==> if x[i] != y[i] then TextLeq(x[i], y[i]) else TextsLeq(x[i + 1..], y[i + 1..])
    ensures i + 1 == |x| ==> TextsLeq(x[i + 1..], y[i + 1..])
  {
    assert x[i..][1..] == x[i + 1..] && y[i..][1..] == y[i + 1..];
  }

  lemma {:induction false} LeqItself(a: string)
    ensures TextLeq(a, a)
  {
    TextLeqIs(a, a, |a|);
  }

  lemma ArtistCoverIs(albums: Albums, id: ArtistId)
    requires exists a :: a in Group(albums, ArtistIdOf, id)
    ensures exists a :: a in albums && albums[a].artistId == id
                        && albums[a].cover == ArtistCover(Group(albums, ArtistIdOf, id))
                        && forall b :: b in albums && albums[b].artistId == id ==> AlbumFirst(albums, a, b)
  {
    var group := Group(albums, ArtistIdOf, id);
    ShelfOrderIsTotal();
    var shelf := set a | a in group :: (group[a].titleSort, group[a].title, a);
    var any :| any in group;
    assert (group[any].titleSort, group[any].title, any) in shelf;
    var first := Least(shelf, ShelfOrder);
    var a := first.2;
    assert a in group && first == (group[a].titleSort, group[a].title, a);
    hide ShelfOrder;
    forall b | b in albums && albums[b].artistId == id ensures AlbumFirst(albums, a, b) {
      assert b in group && (group[b].titleSort, group[b].title, b) in shelf;
      ShelfIsFirst(albums, a, b);
    }
    assert albums[a].cover == ArtistCover(group);
  }

  /** A sum over albums is a sum over any one and the others. */
  lemma {:induction false} TotalWithout(albums: Albums, a: AlbumId)
    requires a in albums
    ensures TotalTracks(albums) == albums[a].trackCount + TotalTracks(albums - {a})
    decreases |albums|
  {
    var chosen :| chosen in albums.Keys && TotalTracks(albums)
        == albums[chosen].trackCount + TotalTracks(albums - {chosen});
    if chosen != a {
      TotalWithout(albums - {chosen}, a);
      TotalWithout(albums - {a}, chosen);
      assert (albums - {chosen}) - {a} == (albums - {a}) - {chosen};
    }
  }

  ghost function TracksOn(tracks: Tracks, albums: Albums): set<TrackId> {
    set k | k in tracks && tracks[k].albumId in albums
  }

  lemma OneAlbumMore(tracks: Tracks, albums: Albums, a: AlbumId)
    requires a in albums
    ensures |TracksOn(tracks, albums)|
         == |set k | k in tracks && tracks[k].albumId == a| + |TracksOn(tracks, albums - {a})|
  {
    var here := set k | k in tracks && tracks[k].albumId == a;
    var others := TracksOn(tracks, albums - {a});
    assert TracksOn(tracks, albums) == here + others && here !! others;
  }

  /** The track counts of albums add up to the tracks that are on them. */
  lemma {:induction false} TotalIsCount(tracks: Tracks, albums: Albums)
    requires forall a :: a in albums ==> albums[a].trackCount == |set k | k in tracks && tracks[k].albumId == a|
    ensures TotalTracks(albums) == |TracksOn(tracks, albums)|
    decreases |albums|
  {
    if albums.Keys == {} {
      assert TracksOn(tracks, albums) == {};
    } else {
      hide TotalTracks;
      var a :| a in albums.Keys;
      TotalWithout(albums, a);
      TotalIsCount(tracks, albums - {a});
      OneAlbumMore(tracks, albums, a);
    }
  }

  lemma ArtistTracks(tracks: Tracks, albums: Albums, id: ArtistId)
    requires forall a :: a in albums ==> albums[a].trackCount == |set k | k in tracks && tracks[k].albumId == a|
    ensures TotalTracks(Group(albums, ArtistIdOf, id))
         == |set k | k in tracks && tracks[k].albumId in albums && albums[tracks[k].albumId].artistId == id|
  {
    var group := Group(albums, ArtistIdOf, id);
    forall a | a in group ensures group[a].trackCount == |set k | k in tracks && tracks[k].albumId == a| {
      assert group[a] == albums[a];
    }
    TotalIsCount(tracks, group);
    assert TracksOn(tracks, group)
        == set k | k in tracks && tracks[k].albumId in albums && albums[tracks[k].albumId].artistId == id;
  }

  lemma ArtistTexts(texts: Texts, albums: Albums, id: ArtistId)
    requires exists a :: a in Group(albums, ArtistIdOf, id)
    requires forall a :: a in albums ==> albums[a].artistId.name == albums[a].albumArtist
    ensures var row := ArtistRowOf(texts, Group(albums, ArtistIdOf, id));
            && row.name == id.name && row.searchText == texts.searchKey([id.name])
            && row.albumCount == |set a | a in albums && albums[a].artistId == id|
            && row.trackCount == TotalTracks(Group(albums, ArtistIdOf, id))
            && row.cover == ArtistCover(Group(albums, ArtistIdOf, id))
            && (exists a :: a in albums && albums[a].artistId == id && albums[a].albumArtistSort == row.nameSort)
            && forall a :: a in albums && albums[a].artistId == id ==>
                 TextLeq(row.nameSort, albums[a].albumArtistSort)
  {
    var group := Group(albums, ArtistIdOf, id);
    var row := ArtistRowOf(texts, group);
    hide TextLeq, ArtistCover, TotalTracks;
    assert group.Keys == set a | a in albums && albums[a].artistId == id;
    assert |group| == |group.Keys|;
    var sorts := set a | a in group :: group[a].albumArtistSort;
    assert row.nameSort in sorts;
    var least :| least in group && group[least].albumArtistSort == row.nameSort;
    assert least in albums && albums[least].artistId == id;
    forall a | a in albums && albums[a].artistId == id ensures TextLeq(row.nameSort, albums[a].albumArtistSort) {
      assert a in group && group[a].albumArtistSort in sorts;
    }
  }

  /** Every row of the artist table, made from the album rows of the tracks, says this. */
  lemma ArtistRowIs(texts: Texts, tracks: Tracks, id: ArtistId)
    requires id in AllRows(AllRows(tracks, AlbumIdOf, AlbumRowFor(texts)), ArtistIdOf, ArtistRowFor(texts))
    ensures var albums := AllRows(tracks, AlbumIdOf, AlbumRowFor(texts));
            ArtistRowSays(texts, tracks, albums, id, AllRows(albums, ArtistIdOf, ArtistRowFor(texts))[id])
  {
    var albums := AllRows(tracks, AlbumIdOf, AlbumRowFor(texts));
    AlbumsCount(texts, tracks, albums);
    var any := RowOfGroup(albums, ArtistIdOf, id);
    ArtistRowAt(texts, albums, id);
    hide *;
    ArtistRowFrom(texts, tracks, albums, id);
  }

  lemma AlbumsCount(texts: Texts, tracks: Tracks, albums: Albums)
    requires albums == AllRows(tracks, AlbumIdOf, AlbumRowFor(texts))
    ensures forall a :: a in albums ==>
      && albums[a].artistId.name == albums[a].albumArtist
      && albums[a].trackCount == |set k | k in tracks && tracks[k].albumId == a|
  {
    forall a | a in albums
      ensures albums[a].artistId.name == albums[a].albumArtist
      ensures albums[a].trackCount == |set k | k in tracks && tracks[k].albumId == a|
    {
      AlbumRowIs(texts, tracks, a);
    }
  }

  lemma ArtistRowAt(texts: Texts, albums: Albums, id: ArtistId)
    requires exists a :: a in Group(albums, ArtistIdOf, id)
    requires id in AllRows(albums, ArtistIdOf, ArtistRowFor(texts))
    ensures AllRows(albums, ArtistIdOf, ArtistRowFor(texts))[id] == ArtistRowOf(texts, Group(albums, ArtistIdOf, id))
  {
  }

  lemma ArtistRowFrom(texts: Texts, tracks: Tracks, albums: Albums, id: ArtistId)
    requires exists a :: a in Group(albums, ArtistIdOf, id)
    requires forall a :: a in albums ==>
      && albums[a].artistId.name == albums[a].albumArtist
      && albums[a].trackCount == |set k | k in tracks && tracks[k].albumId == a|
    ensures ArtistRowSays(texts, tracks, albums, id, ArtistRowOf(texts, Group(albums, ArtistIdOf, id)))
  {
    hide Group, ArtistRowOf, ArtistCover, TotalTracks, AlbumFirst, TextLeq;
    ArtistTexts(texts, albums, id);
    ArtistTracks(tracks, albums, id);
    ArtistCoverIs(albums, id);
  }

  // ---- The tables ----

  /** All three tables, in terms of the tracks as they were written. */
  ghost predicate TablesSay(texts: Texts, written: Tracks, tables: Tables) {
    && AllFiled(texts, written, tables.tracks)
    && (forall a :: a in tables.albums <==> exists k :: k in tables.tracks && tables.tracks[k].albumId == a)
    && (forall a :: a in tables.albums ==> AlbumRowSays(texts, tables.tracks, a, tables.albums[a]))
    && (forall i :: i in tables.artists <==> exists a :: a in tables.albums && tables.albums[a].artistId == i)
    && (forall i :: i in tables.artists ==> ArtistRowSays(texts, tables.tracks, tables.albums, i, tables.artists[i]))
  }

  lemma RebuiltSays(texts: Texts, written: Tracks)
    ensures TablesSay(texts, written, Rebuilt(texts, written))
  {
    var tables := Rebuilt(texts, written);
    var tracks, albums := tables.tracks, tables.albums;
    SettledEverywhere(texts, written);
    hide AllFiled, Settled, AlbumRowSays, ArtistRowSays, AlbumRowFor, ArtistRowFor;
    forall a | a in albums ensures AlbumRowSays(texts, tracks, a, albums[a]) {
      AlbumRowIs(texts, tracks, a);
    }
    forall i | i in tables.artists ensures ArtistRowSays(texts, tracks, albums, i, tables.artists[i]) {
      ArtistRowIs(texts, tracks, i);
    }
    forall a ensures a in albums <==> exists k :: k in tracks && tracks[k].albumId == a {
      AlbumsThereAre(texts, tracks, a);
    }
    forall i ensures i in tables.artists <==> exists a :: a in albums && albums[a].artistId == i {
      ArtistsThereAre(texts, albums, i);
    }
  }

  lemma AlbumsThereAre(texts: Texts, tracks: Tracks, a: AlbumId)
    ensures a in AllRows(tracks, AlbumIdOf, AlbumRowFor(texts)) <==> exists k :: k in tracks && tracks[k].albumId == a
  {
    hide AlbumRowFor;
    if a in AllRows(tracks, AlbumIdOf, AlbumRowFor(texts)) {
      var k := RowOfGroup(tracks, AlbumIdOf, a);
      assert k in tracks && tracks[k].albumId == a;
    }
    if k :| k in tracks && tracks[k].albumId == a {
      assert AlbumIdOf(tracks[k]) in Ids(tracks, AlbumIdOf);
    }
  }

  lemma ArtistsThereAre(texts: Texts, albums: Albums, i: ArtistId)
    ensures i in AllRows(albums, ArtistIdOf, ArtistRowFor(texts))
      <==> exists a :: a in albums && albums[a].artistId == i
  {
    hide ArtistRowFor;
    if i in AllRows(albums, ArtistIdOf, ArtistRowFor(texts)) {
      var a := RowOfGroup(albums, ArtistIdOf, i);
      assert a in albums && albums[a].artistId == i;
    }
    if a :| a in albums && albums[a].artistId == i {
      assert ArtistIdOf(albums[a]) in Ids(albums, ArtistIdOf);
    }
  }
}
