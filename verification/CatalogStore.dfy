/** The catalog's tables as a transaction changes them: the scanner's writes, settling what they
    touched, and the rebuild. The rows of the summary tables are computed by SQL, so here they are
    ghost: `Rows` is what the queries select. */
module CatalogStore {
  import opened Catalog
  import opened CatalogColumns
  import opened Grouping
  import opened Options
  import opened Summaries

  /** IDs are looked up this many at a time. */
  const CHUNK: nat := 500

  // ---- The scanner's writes ----

  datatype Outcome =
    | Seen
    /** A file that was read: its metadata row is written. */
    | Inspected(track: TrackId, row: Track)
    /** A file that can no longer be decoded: its tags are cleared. */
    | Unreadable(track: TrackId, trackTitle: string)
    /** Artwork that was fetched again, for the revision the row still has or an older one. */
    | RetryArtwork(track: TrackId, artwork: Option<int>, currentRevision: bool)

  function Cleared(texts: Texts, track: Track, trackTitle: string): Track {
    Track(track.rootPath, trackTitle, "", "", "", "", "", "", None, None, None, None,
          "", "", texts.searchKey([trackTitle, "", "", ""]), AlbumId("", "", ""))
  }

  function Written(texts: Texts, tracks: Tracks, outcome: Outcome): Tracks {
    match outcome
    case Seen => tracks
    case Inspected(k, row) => tracks[k := row]
    case Unreadable(k, trackTitle) => if k in tracks then tracks[k := Cleared(texts, tracks[k], trackTitle)] else tracks
    case RetryArtwork(k, artwork, currentRevision) =>
      if k in tracks && currentRevision then tracks[k := tracks[k].(artwork := artwork)] else tracks
  }

  function WrittenAll(texts: Texts, tracks: Tracks, outcomes: seq<Outcome>): Tracks {
    if outcomes == [] then tracks
    else Written(texts, WrittenAll(texts, tracks, outcomes[..|outcomes| - 1]), outcomes[|outcomes| - 1])
  }

  /** What a write makes of the track it names, column by column; no other track changes. */
  lemma WrittenColumns(texts: Texts, tracks: Tracks, outcome: Outcome, k: TrackId)
    ensures var after := Written(texts, tracks, outcome);
            && (!Names(outcome, k) ==> (k in after <==> k in tracks) && (k in tracks ==> after[k] == tracks[k]))
            && (outcome.Inspected? && outcome.track == k ==> k in after && after[k] == outcome.row)
            && (outcome.Unreadable? && outcome.track == k ==>
                  && (k in after <==> k in tracks)
                  && (k in tracks ==> WithoutTags(texts, tracks[k], outcome.trackTitle, after[k])))
            && (outcome.RetryArtwork? && outcome.track == k ==>
                  && (k in after <==> k in tracks)
                  && (k in tracks ==>
                        after[k] == if outcome.currentRevision then tracks[k].(artwork := outcome.artwork)
                            else tracks[k]))
  {
  }

  /** The outcome is about track `k`. */
  predicate Names(outcome: Outcome, k: TrackId) { !outcome.Seen? && outcome.track == k }

  /** The row of a file whose tags are cleared: its root and its title are left. */
  ghost predicate WithoutTags(texts: Texts, before: Track, title: string, row: Track) {
    && row.rootPath == before.rootPath && row.trackTitle == title
    && row.artist == "" == row.artistSort && row.album == "" == row.albumSort && row.directory == ""
    && row.tagAlbumArtist == "" == row.albumArtist && row.albumArtistSort == ""
    && row.year.None? && row.disc.None? && row.number.None? && row.artwork.None?
    && row.searchText == texts.searchKey([title, "", "", ""])
    && row.albumId.albumArtist == "" == row.albumId.title && row.albumId.path == ""
  }

  /** The last row that was read of a track is its row, if nothing named it since. */
  lemma {:induction false} LastWriteStays(texts: Texts, tracks: Tracks, outcomes: seq<Outcome>, i: nat)
    requires i < |outcomes| && outcomes[i].Inspected?
    requires forall j :: i < j < |outcomes| ==> !Names(outcomes[j], outcomes[i].track)
    ensures var after := WrittenAll(texts, tracks, outcomes);
            outcomes[i].track in after && after[outcomes[i].track] == outcomes[i].row
  {
    var n := |outcomes| - 1;
    WrittenColumns(texts, WrittenAll(texts, tracks, outcomes[..n]), outcomes[n], outcomes[i].track);
    if i < n {
      LastWriteStays(texts, tracks, outcomes[..n], i);
    }
  }

  /** The scanner writes rows that carry the ID of the album they are filed under. */
  ghost predicate WellFormed(outcomes: seq<Outcome>) {
    forall i :: 0 <= i < |outcomes| && outcomes[i].Inspected? ==>
      outcomes[i].row.albumId == AlbumOf(outcomes[i].row, outcomes[i].row.albumArtist)
  }

  // ---- Identity ----

  lemma SettledIsIdentified(texts: Texts, tracks: Tracks, editions: set<Edition>)
    requires Identified(tracks)
    ensures Identified(Settled(texts, tracks, editions))
  {
    var after := Settled(texts, tracks, editions);
    forall k | k in after ensures after[k].albumId == AlbumOf(after[k], after[k].albumArtist) {
      assert AlbumOf(after[k], after[k].albumArtist) == AlbumOf(tracks[k], after[k].albumArtist);
    }
  }

  lemma {:induction false} WrittenAllIsIdentified(texts: Texts, tracks: Tracks, outcomes: seq<Outcome>)
    requires Identified(tracks) && WellFormed(outcomes)
    ensures Identified(WrittenAll(texts, tracks, outcomes))
  {
    if outcomes != [] {
      WrittenAllIsIdentified(texts, tracks, outcomes[..|outcomes| - 1]);
    }
  }

  /** Tracks on one album share the title and Album Artist its row shows. */
  lemma AlbumColumnsAreShared(texts: Texts, tracks: Tracks, k: TrackId)
    requires Identified(tracks) && k in tracks
    ensures var row := AllRows(tracks, AlbumIdOf, AlbumRowFor(texts))[tracks[k].albumId];
            row.title == tracks[k].album && row.albumArtist == tracks[k].albumArtist
  {
    var id := AlbumIdOf(tracks[k]);
    var group := Group(tracks, AlbumIdOf, id);
    assert k in group;
    var row := AlbumRowOf(texts, group);
    var any :| any in group && row.title == group[any].album && row.albumArtist == group[any].albumArtist;
    assert tracks[any].albumId == tracks[k].albumId;
  }

  // ---- Chunks ----

  ghost function Of<T>(s: seq<T>): set<T> {
    set x | x in s
  }

  lemma OfSplit<T>(s: seq<T>, at: nat, end: nat)
    requires at <= end <= |s|
    ensures Of(s[..end]) == Of(s[..at]) + Of(s[at..end])
  {
    assert s[..end] == s[..at] + s[at..end];
  }

  method Pick<T>(s: set<T>) returns (x: T)
    requires s != {}
    ensures x in s
  {
    x :| x in s;
  }

  method ToSeq<T>(s: set<T>) returns (r: seq<T>)
    ensures Of(r) == s
  {
    r := [];
    var todo := s;
    while todo != {}
      invariant Of(r) == s - todo && todo <= s
    {
      var x := Pick(todo);
      assert Of(r + [x]) == Of(r) + {x};
      r, todo := r + [x], todo - {x};
    }
  }

  lemma Listed<T>(s: set<T>) returns (r: seq<T>)
    ensures Of(r) == s
  {
    r := [];
    if s != {} {
      var x :| x in s;
      r := Listed(s - {x});
      assert Of(r + [x]) == Of(r) + {x};
      r := r + [x];
    }
  }

  /** What a write changed. */
  class Touched {
    var albums: set<AlbumId>
    var editions: set<Edition>

    constructor ()
      ensures albums == {} && editions == {}
    {
      albums, editions := {}, {};
    }

    method StoredTrack(tracks: Tracks, k: TrackId)
      modifies this
      ensures old(albums) <= albums && old(editions) <= editions
      ensures k in tracks ==> Noted(tracks[k], albums, editions)
      ensures k !in tracks ==> albums == old(albums) && editions == old(editions)
      ensures (forall e :: e in old(editions) ==> e.1 != "") ==> (forall e :: e in editions ==> e.1 != "")
    {
      if k in tracks {
        Album(tracks[k].albumId, tracks[k].directory, tracks[k].album);
      }
    }

    method Album(id: AlbumId, directory: string, title: string)
      modifies this
      ensures albums == old(albums) + {id}
      ensures editions == if title == "" then old(editions) else old(editions) + {(directory, title)}
    {
      if title != "" {
        editions := editions + {(directory, title)};
      }
      albums := albums + {id};
    }
  }

  lemma RowsAreMembers(tracks: Tracks, directory: string, title: string, rows: set<TrackId>)
    requires forall k :: k in rows <==>
      k in tracks && Untagged(tracks[k]) && tracks[k].directory == directory && tracks[k].album == title
    ensures rows == Members(tracks, (directory, title))
  {
    forall k ensures k in rows <==> k in Members(tracks, (directory, title)) {
      if k in tracks {
        assert InEdition(tracks[k], (directory, title)) <==> k in rows;
      }
    }
  }

  ghost function Filed(texts: Texts, tracks: Tracks, rows: set<TrackId>, compilation: bool): Tracks {
    map k | k in tracks :: if k in rows then Refiled(texts, tracks[k], compilation) else tracks[k]
  }

  lemma NothingFiled(texts: Texts, tracks: Tracks, compilation: bool)
    ensures Filed(texts, tracks, {}, compilation) == tracks
  {
  }

  lemma FiledOneMore(texts: Texts, tracks: Tracks, done: set<TrackId>, k: TrackId, compilation: bool)
    requires k in tracks && k !in done
    ensures var filed := Filed(texts, tracks, done, compilation);
            && k in filed && filed[k] == tracks[k]
            && Filed(texts, tracks, done + {k}, compilation) == filed[k := Refiled(texts, tracks[k], compilation)]
  {
  }

  lemma FiledIsSettled(texts: Texts, tracks: Tracks, edition: Edition)
    ensures Filed(texts, tracks, Members(tracks, edition), IsCompilation(tracks, edition))
      == Settled(texts, tracks, {edition})
  {
    forall k | k in tracks ensures k in Members(tracks, edition) <==> InEdition(tracks[k], edition) {}
  }

  lemma NothingTouched(albums: Albums, tracks: Tracks, ids: seq<AlbumId>)
    ensures ArtistsTouched(albums, tracks, Of(ids[..0])) == {}
  {
  }

  lemma ChunkTouches(albums: Albums, tracks: Tracks, ids: set<AlbumId>, chunk: set<AlbumId>, under: set<ArtistId>,
                     now: set<ArtistId>)
    requires under == set a | a in albums && a in chunk :: albums[a].artistId
    requires now == set k | k in tracks && tracks[k].albumId in chunk :: ArtistId(tracks[k].albumArtist)
    ensures ArtistsTouched(albums, tracks, ids + chunk) == ArtistsTouched(albums, tracks, ids) + under + now
  {
  }

  lemma DifferInMore(first: Tracks, second: Tracks, third: Tracks, some: set<AlbumId>, more: set<AlbumId>, k: TrackId)
    requires DifferIn(first, second, AlbumIdOf, some) && some <= more
    requires k in second && k in third && third == second[k := third[k]]
    requires third[k] != second[k] ==> second[k].albumId in more && third[k].albumId in more
    ensures DifferIn(first, third, AlbumIdOf, more)
  {
    forall j | !Same(first, third, j)
      ensures (j in first ==> AlbumIdOf(first[j]) in more) && (j in third ==> AlbumIdOf(third[j]) in more)
    {
      assert !Same(first, second, j) || (j == k && third[k] != second[k]);
    }
  }

  lemma DifferInJoin(first: Tracks, second: Tracks, third: Tracks, some: set<AlbumId>, more: set<AlbumId>)
    requires DifferIn(first, second, AlbumIdOf, some) && DifferIn(second, third, AlbumIdOf, more) && some <= more
    ensures DifferIn(first, third, AlbumIdOf, more)
  {
    forall k | !Same(first, third, k)
      ensures (k in first ==> AlbumIdOf(first[k]) in more) && (k in third ==> AlbumIdOf(third[k]) in more)
    {
      assert !Same(first, second, k) || !Same(second, third, k);
    }
  }

  lemma NothingDiffers(tracks: Tracks, ids: set<AlbumId>)
    ensures DifferIn(tracks, tracks, AlbumIdOf, ids)
  {
  }

  lemma NoneSettled(texts: Texts, tracks: Tracks)
    ensures Settled(texts, tracks, {}) == tracks
  {
  }

  class Store {
    const texts: Texts
    var tracks: Tracks
    ghost var albums: Albums
    ghost var artists: Artists

    ghost function Tables(): Tables
      reads this
    {
      Catalog.Tables(tracks, albums, artists)
    }

    constructor (texts: Texts)
      ensures this.texts == texts && tracks == map[] && InStep(texts, Tables())
    {
      this.texts := texts;
      tracks, albums, artists := map[], map[], map[];
    }

    /** Files one untagged track, and notes the albums that lose and gain it. */
    method FileTrack(k: TrackId, compilation: bool, moved: Touched)
      requires k in tracks && tracks[k].album != ""
      modifies this`tracks, moved`albums
      ensures tracks == old(tracks)[k := Refiled(texts, old(tracks)[k], compilation)]
      ensures old(moved.albums) <= moved.albums
      ensures tracks[k] != old(tracks)[k] ==>
        old(tracks)[k].albumId in moved.albums && tracks[k].albumId in moved.albums
    {
      var row := tracks[k];
      var under := if compilation then VARIOUS_ARTISTS else row.artist;
      var sort := if compilation then texts.sortKey(VARIOUS_ARTISTS) else row.artistSort;
      if under != row.albumArtist {
        var albumId := AlbumId(under, row.album, AbsoluteDirectory(row.rootPath, row.directory));
        moved.albums := moved.albums + {row.albumId, albumId};
        tracks := tracks[k := row.(albumArtist := under,
                                   albumArtistSort := sort,
                                   searchText := texts.searchKey([row.trackTitle, row.artist, row.album, under]),
                                   albumId := albumId)];
      }
    }

    /** Settles one edition, the others staying as they are; every album that loses or gains a track by
        it is noted. */
    method SettleCompilation(directory: string, title: string, moved: Touched)
      requires title != ""
      modifies this`tracks, moved`albums
      ensures tracks == Settled(texts, old(tracks), {(directory, title)})
      ensures EditionFiled(texts, old(tracks), tracks, directory, title)
      ensures old(moved.albums) <= moved.albums && DifferIn(old(tracks), tracks, AlbumIdOf, moved.albums)
    {
      var rows := set k |
        k in tracks && Untagged(tracks[k]) && tracks[k].directory == directory && tracks[k].album == title;
      var names := set k | k in rows && tracks[k].artist != "" :: tracks[k].artist;
      RowsAreMembers(tracks, directory, title, rows);
      assert names == ArtistsIn(tracks, (directory, title));
      FiledIsSettled(texts, tracks, (directory, title));
      SettledEdition(texts, tracks, directory, title);
      FileTracks(rows, |names| > 1, moved);
    }

    method FileTracks(rows: set<TrackId>, compilation: bool, moved: Touched)
      requires forall k :: k in rows ==> k in tracks && tracks[k].album != ""
      modifies this`tracks, moved`albums
      ensures tracks == Filed(texts, old(tracks), rows, compilation)
      ensures old(moved.albums) <= moved.albums && DifferIn(old(tracks), tracks, AlbumIdOf, moved.albums)
    {
      hide Filed, DifferIn, Refiled;
      var todo := rows;
      NothingFiled(texts, tracks, compilation);
      NothingDiffers(tracks, moved.albums);
      assert rows - todo == {};
      while todo != {}
        invariant todo <= rows && tracks == Filed(texts, old(tracks), rows - todo, compilation)
        invariant old(moved.albums) <= moved.albums && DifferIn(old(tracks), tracks, AlbumIdOf, moved.albums)
      {
        var k := Pick(todo);
        ghost var before, noted, done := tracks, moved.albums, rows - todo;
        FiledOneMore(texts, old(tracks), done, k, compilation);
        FileTrack(k, compilation, moved);
        DifferInMore(old(tracks), before, tracks, noted, moved.albums, k);
        todo := todo - {k};
        assert rows - todo == done + {k};
      }
      assert rows - {} == rows;
    }

    /** Brings the tables to what a rebuild of the written tracks gives, from the notes of what was
        written since they last were in step. */
    method Settle(touched: Touched, ghost before: Tables)
      requires InStep(texts, before) && albums == before.albums && artists == before.artists
      requires Covers(before.tracks, tracks, touched.albums, touched.editions)
      requires forall e :: e in touched.editions ==> e.1 != ""
      modifies this, touched
      ensures Tables() == Rebuilt(texts, old(tracks)) && TablesSay(texts, old(tracks), Tables())
    {
      hide TablesSay, EditionFiled, DifferIn, Settled, InStep, Refreshed, Rebuilt, Covers;
      ghost var written, noted, editions := tracks, touched.albums, touched.editions;
      var todo := touched.editions;
      touched.editions := {};
      NoneSettled(texts, written);
      assert editions - todo == {};
      NothingDiffers(written, noted);
      while todo != {}
        invariant todo <= editions && tracks == Settled(texts, written, editions - todo)
        invariant noted <= touched.albums && DifferIn(written, tracks, AlbumIdOf, touched.albums)
        invariant albums == before.albums && artists == before.artists
      {
        var edition := Pick(todo);
        ghost var done, halfway, ids := editions - todo, tracks, touched.albums;
        todo := todo - {edition};
        SettleCompilation(edition.0, edition.1, touched);
        SettledOneMore(texts, written, done, edition);
        assert editions - todo == done + {edition};
        DifferInJoin(written, halfway, tracks, ids, touched.albums);
      }
      assert editions - {} == editions;
      var ids := ToSeq(touched.albums);
      SettleEqualsRebuild(texts, before, written, tracks, noted, editions, touched.albums);
      RebuiltSays(texts, written);
      Refresh(ids);
    }

    /** Replaces the rows of `ids`, and of the artists these albums were under or are. Going chunk by chunk
        gives what doing it at once gives. */
    method Refresh(ids: seq<AlbumId>)
      modifies this`albums, this`artists
      ensures Tables() == Refreshed(texts, old(Tables()), Of(ids))
    {
      hide ArtistsTouched, Of, Rows, AlbumRowFor, ArtistRowFor;
      ghost var names: set<ArtistId> := {};
      var at := 0;
      NothingTouched(albums, tracks, ids);
      while at < |ids|
        invariant at <= |ids| && names == ArtistsTouched(albums, tracks, Of(ids[..at]))
        invariant Tables() == old(Tables())
      {
        var end := if at + CHUNK < |ids| then at + CHUNK else |ids|;
        ghost var chunk := Of(ids[at..end]);
        ghost var under := set a | a in albums && a in chunk :: albums[a].artistId;
        ghost var now := set k | k in tracks && tracks[k].albumId in chunk :: ArtistId(tracks[k].albumArtist);
        ChunkTouches(albums, tracks, Of(ids[..at]), chunk, under, now);
        names := names + under;
        names := names + now;
        OfSplit(ids, at, end);
        at := end;
      }
      assert ids[..at] == ids;
      assert names == ArtistsTouched(old(albums), tracks, Of(ids));
      RefreshAlbums(ids);
      RefreshArtists(names);
    }

    method RefreshAlbums(ids: seq<AlbumId>)
      modifies this`albums
      ensures albums == (old(albums) - Of(ids)) + Rows(tracks, AlbumIdOf, AlbumRowFor(texts), Of(ids))
    {
      var at := 0;
      while at < |ids|
        invariant at <= |ids|
        invariant albums == (old(albums) - Of(ids[..at])) + Rows(tracks, AlbumIdOf, AlbumRowFor(texts), Of(ids[..at]))
      {
        var end := if at + CHUNK < |ids| then at + CHUNK else |ids|;
        ghost var chunk := Of(ids[at..end]);
        albums := albums - chunk;
        albums := albums + Rows(tracks, AlbumIdOf, AlbumRowFor(texts), chunk);
        RowsReplacedTogether(old(albums), tracks, AlbumIdOf, AlbumRowFor(texts), Of(ids[..at]), chunk);
        OfSplit(ids, at, end);
        at := end;
      }
      assert ids[..|ids|] == ids;
    }

    ghost method RefreshArtists(names: set<ArtistId>)
      modifies this`artists
      ensures artists == (old(artists) - names) + Rows(albums, ArtistIdOf, ArtistRowFor(texts), names)
    {
      var ids := Listed(names);
      var at := 0;
      while at < |ids|
        invariant at <= |ids|
        invariant artists == (old(artists) - Of(ids[..at]))
          + Rows(albums, ArtistIdOf, ArtistRowFor(texts), Of(ids[..at]))
      {
        var end := if at + CHUNK < |ids| then at + CHUNK else |ids|;
        var chunk := Of(ids[at..end]);
        artists := artists - chunk;
        artists := artists + Rows(albums, ArtistIdOf, ArtistRowFor(texts), chunk);
        RowsReplacedTogether(old(artists), albums, ArtistIdOf, ArtistRowFor(texts), Of(ids[..at]), chunk);
        OfSplit(ids, at, end);
        at := end;
      }
      assert ids[..|ids|] == ids;
    }

    /** Settles every edition a Compilation may form in. */
    method SettleAll()
      modifies this`tracks
      ensures tracks == Settled(texts, old(tracks), AllEditions(old(tracks)))
    {
      hide Settled, DifferIn, EditionFiled;
      ghost var written := tracks;
      var editions := set k | k in tracks && tracks[k].album != "" && Untagged(tracks[k]) ::
        (tracks[k].directory, tracks[k].album);
      assert editions == AllEditions(written);
      var ignored := new Touched();
      var todo := editions;
      NoneSettled(texts, written);
      assert editions - todo == {};
      while todo != {}
        invariant todo <= editions && tracks == Settled(texts, written, editions - todo)
      {
        var edition := Pick(todo);
        ghost var done := editions - todo;
        todo := todo - {edition};
        SettleCompilation(edition.0, edition.1, ignored);
        SettledOneMore(texts, written, done, edition);
        assert editions - todo == done + {edition};
      }
      assert editions - {} == editions;
    }

    /** Computes every summary from the tracks again. */
    method Rebuild()
      modifies this
      ensures Tables() == Rebuilt(texts, old(tracks)) && InStep(texts, Tables())
      ensures TablesSay(texts, old(tracks), Tables())
    {
      hide TablesSay;
      RebuiltSays(texts, tracks);
      RebuiltIsInStep(texts, tracks);
      SettleAll();
      albums, artists := map[], map[];
      albums := AllRows(tracks, AlbumIdOf, AlbumRowFor(texts));
      artists := AllRows(albums, ArtistIdOf, ArtistRowFor(texts));
    }

    /** Writes one batch of scan outcomes and settles it. */
    method WriteBatch(outcomes: seq<Outcome>)
      requires InStep(texts, Tables())
      modifies this
      ensures Tables() == Rebuilt(texts, WrittenAll(texts, old(tracks), outcomes)) && InStep(texts, Tables())
      ensures TablesSay(texts, WrittenAll(texts, old(tracks), outcomes), Tables())
    {
      hide TablesSay;
      ghost var before := Tables();
      var touched := new Touched();
      for i := 0 to |outcomes|
        invariant tracks == WrittenAll(texts, before.tracks, outcomes[..i])
        invariant albums == before.albums && artists == before.artists
        invariant Covers(before.tracks, tracks, touched.albums, touched.editions)
        invariant forall e :: e in touched.editions ==> e.1 != ""
      {
        assert outcomes[..i + 1][..i] == outcomes[..i];
        WriteOutcome(outcomes[i], touched, before.tracks);
      }
      assert outcomes[..|outcomes|] == outcomes;
      RebuiltIsInStep(texts, tracks);
      Settle(touched, before);
    }

    method WriteOutcome(outcome: Outcome, touched: Touched, ghost before: Tracks)
      requires Covers(before, tracks, touched.albums, touched.editions)
      requires forall e :: e in touched.editions ==> e.1 != ""
      modifies this`tracks, touched
      ensures tracks == Written(texts, old(tracks), outcome)
      ensures Covers(before, tracks, touched.albums, touched.editions)
      ensures forall e :: e in touched.editions ==> e.1 != ""
    {
      match outcome
      case Seen =>
      case Inspected(k, row) =>
        touched.StoredTrack(tracks, k);
        touched.Album(row.albumId, row.directory, row.album);
        tracks := tracks[k := row];
      case Unreadable(k, trackTitle) =>
        touched.StoredTrack(tracks, k);
        if k in tracks {
          tracks := tracks[k := Cleared(texts, tracks[k], trackTitle)];
        }
        touched.Album(AlbumId("", "", ""), "", "");
      case RetryArtwork(k, artwork, currentRevision) =>
        touched.StoredTrack(tracks, k);
        if k in tracks && currentRevision {
          tracks := tracks[k := tracks[k].(artwork := artwork)];
        }
    }
  }
}
