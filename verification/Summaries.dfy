/** Two ways to summary tables that say what the tracks say: settling changes only what a write
    touched, a rebuild starts over, and both leave the same tables. */
module Summaries {
  import opened Catalog
  import opened Grouping

  // ---- Compilations ----

  /** Filing a track changes nothing that decides what a Compilation is. */
  lemma SettledKeepsEditions(texts: Texts, tracks: Tracks, editions: set<Edition>, edition: Edition)
    ensures Members(Settled(texts, tracks, editions), edition) == Members(tracks, edition)
    ensures ArtistsIn(Settled(texts, tracks, editions), edition) == ArtistsIn(tracks, edition)
  {
    var after := Settled(texts, tracks, editions);
    assert after.Keys == tracks.Keys;
    forall k | k in tracks ensures InEdition(after[k], edition) <==> InEdition(tracks[k], edition) {}
    assert Members(after, edition) == Members(tracks, edition);
    forall k | k in tracks ensures after[k].artist == tracks[k].artist {}
  }

  /** Editions are settled independently, so their order does not matter. */
  lemma SettledOneMore(texts: Texts, tracks: Tracks, done: set<Edition>, edition: Edition)
    requires edition !in done
    ensures Settled(texts, Settled(texts, tracks, done), {edition}) == Settled(texts, tracks, done + {edition})
  {
    var once := Settled(texts, tracks, done);
    var twice, both := Settled(texts, once, {edition}), Settled(texts, tracks, done + {edition});
    assert twice.Keys == both.Keys == tracks.Keys;
    forall k | k in tracks ensures twice[k] == both[k] {
      SettledOneMoreAt(texts, tracks, done, edition, k);
    }
  }

  lemma SettledOneMoreAt(texts: Texts, tracks: Tracks, done: set<Edition>, edition: Edition, k: TrackId)
    requires edition !in done && k in tracks
    ensures Settled(texts, Settled(texts, tracks, done), {edition})[k] == Settled(texts, tracks, done + {edition})[k]
  {
    SettledKeepsEditions(texts, tracks, done, edition);
    hide Members, ArtistsIn;
    var once := Settled(texts, tracks, done);
    assert Untagged(once[k]) == Untagged(tracks[k]) && EditionOf(once[k]) == EditionOf(tracks[k]);
  }

  lemma RefiledTwice(texts: Texts, track: Track, compilation: bool)
    ensures Refiled(texts, Refiled(texts, track, compilation), compilation) == Refiled(texts, track, compilation)
  {
  }

  lemma SettledTwiceAt(texts: Texts, tracks: Tracks, k: TrackId)
    requires k in tracks
    ensures var after := Settled(texts, tracks, AllEditions(tracks));
            && after[k].album == tracks[k].album
            && Untagged(after[k]) == Untagged(tracks[k]) && EditionOf(after[k]) == EditionOf(tracks[k])
            && Settled(texts, after, AllEditions(tracks))[k] == after[k]
  {
    var edition := EditionOf(tracks[k]);
    SettledKeepsEditions(texts, tracks, AllEditions(tracks), edition);
    RefiledTwice(texts, tracks[k], IsCompilation(tracks, edition));
  }

  /** A second settling finds nothing to do. */
  lemma SettledTwice(texts: Texts, tracks: Tracks)
    ensures var after := Settled(texts, tracks, AllEditions(tracks));
            AllEditions(after) == AllEditions(tracks) && Settled(texts, after, AllEditions(after)) == after
  {
    var after := Settled(texts, tracks, AllEditions(tracks));
    forall k | k in tracks
      ensures after[k].album == tracks[k].album
      ensures Untagged(after[k]) == Untagged(tracks[k]) && EditionOf(after[k]) == EditionOf(tracks[k])
      ensures Settled(texts, after, AllEditions(tracks))[k] == after[k]
    {
      SettledTwiceAt(texts, tracks, k);
    }
    assert after.Keys == tracks.Keys;
    assert AllEditions(after) == AllEditions(tracks);
    assert Settled(texts, after, AllEditions(tracks)).Keys == after.Keys;
  }

  /** A rebuild of rebuilt tables changes nothing: being in step is being a rebuild's own result. */
  lemma RebuiltIsInStep(texts: Texts, tracks: Tracks)
    ensures InStep(texts, Rebuilt(texts, tracks))
  {
    SettledTwice(texts, tracks);
  }

  // ---- What a write must say it touched ----

  ghost predicate Noted(track: Track, albums: set<AlbumId>, editions: set<Edition>) {
    && track.albumId in albums
    && (track.album != "" ==> EditionOf(track) in editions)
  }

  /** Every track a write changed is noted, as it was and as it is. */
  ghost predicate Covers(before: Tracks, after: Tracks, albums: set<AlbumId>, editions: set<Edition>) {
    forall k :: !Same(before, after, k) ==>
      && (k in before ==> Noted(before[k], albums, editions))
      && (k in after ==> Noted(after[k], albums, editions))
  }

  lemma UntouchedEditionIsSame(before: Tracks, after: Tracks, albums: set<AlbumId>, editions: set<Edition>,
                               edition: Edition)
    requires Covers(before, after, albums, editions)
    requires edition !in editions && edition.1 != ""
    ensures Members(before, edition) == Members(after, edition)
    ensures forall k :: k in Members(after, edition) ==> before[k] == after[k]
    ensures ArtistsIn(before, edition) == ArtistsIn(after, edition)
  {
    forall k
      ensures k in Members(before, edition) <==> k in Members(after, edition)
      ensures k in Members(after, edition) ==> before[k] == after[k]
    {
      assert Same(before, after, k) || k !in before || Noted(before[k], albums, editions);
    }
  }

  /** Settling what a write to settled tracks touched settles everything. */
  lemma TouchedEditionsSuffice(texts: Texts, before: Tracks, after: Tracks, albums: set<AlbumId>,
                               editions: set<Edition>)
    requires before == Settled(texts, before, AllEditions(before))
    requires Covers(before, after, albums, editions)
    requires forall e :: e in editions ==> e.1 != ""
    ensures Settled(texts, after, editions) == Settled(texts, after, AllEditions(after))
  {
    forall k | k in after && Untagged(after[k])
      ensures Settled(texts, after, editions)[k] == Settled(texts, after, AllEditions(after))[k]
    {
      var edition := EditionOf(after[k]);
      if after[k].album != "" && edition !in editions {
        UntouchedEditionIsSame(before, after, albums, editions, edition);
        assert k in Members(after, edition);
        assert before[k] == Settled(texts, before, AllEditions(before))[k];
        assert edition in AllEditions(before) && edition in AllEditions(after);
      }
    }
  }

  // ---- Replacing the rows of the touched albums and artists ----

  /** The artists to refresh: those the touched albums were under, and those their tracks are under. */
  ghost function ArtistsTouched(albums: Albums, tracks: Tracks, ids: set<AlbumId>): set<ArtistId> {
    (set a | a in albums && a in ids :: albums[a].artistId)
    + (set k | k in tracks && tracks[k].albumId in ids :: ArtistId(tracks[k].albumArtist))
  }

  /** What a refresh of the albums in `ids` computes. */
  ghost function Refreshed(texts: Texts, tables: Tables, ids: set<AlbumId>): Tables {
    var albums := (tables.albums - ids) + Rows(tables.tracks, AlbumIdOf, AlbumRowFor(texts), ids);
    var touched := ArtistsTouched(tables.albums, tables.tracks, ids);
    Tables(tables.tracks, albums, (tables.artists - touched) + Rows(albums, ArtistIdOf, ArtistRowFor(texts), touched))
  }

  lemma NewRowIsTouched(texts: Texts, before: Albums, tracks: Tracks, ids: set<AlbumId>, a: AlbumId)
    requires a in Rows(tracks, AlbumIdOf, AlbumRowFor(texts), ids)
    ensures Rows(tracks, AlbumIdOf, AlbumRowFor(texts), ids)[a].artistId in ArtistsTouched(before, tracks, ids)
  {
    var group := Group(tracks, AlbumIdOf, a);
    var k := RowOfGroup(tracks, AlbumIdOf, a);
    var row := AlbumRowOf(texts, group);
    var any :| any in group && row.title == group[any].album && row.albumArtist == group[any].albumArtist;
    assert any in tracks && tracks[any].albumId in ids;
  }

  lemma AlbumRowsDiffer(texts: Texts, before: Albums, tracks: Tracks, ids: set<AlbumId>)
    ensures DifferIn(before, (before - ids) + Rows(tracks, AlbumIdOf, AlbumRowFor(texts), ids),
                     ArtistIdOf, ArtistsTouched(before, tracks, ids))
  {
    var newRows := Rows(tracks, AlbumIdOf, AlbumRowFor(texts), ids);
    var after := (before - ids) + newRows;
    var touched := ArtistsTouched(before, tracks, ids);
    forall a | !Same(before, after, a)
      ensures (a in before ==> ArtistIdOf(before[a]) in touched) && (a in after ==> ArtistIdOf(after[a]) in touched)
    {
      assert a in ids;
      if a in after {
        assert a in newRows;
        NewRowIsTouched(texts, before, tracks, ids, a);
      }
    }
  }

  lemma WrittenAndSettledDiffer(before: Tracks, tracks: Tracks, settled: Tracks, albums: set<AlbumId>,
                                editions: set<Edition>, ids: set<AlbumId>)
    requires Covers(before, tracks, albums, editions)
    requires albums <= ids && DifferIn(tracks, settled, AlbumIdOf, ids)
    ensures DifferIn(before, settled, AlbumIdOf, ids)
  {
    forall k | !Same(before, settled, k)
      ensures (k in before ==> before[k].albumId in ids) && (k in settled ==> settled[k].albumId in ids)
    {
      assert !Same(before, tracks, k) || !Same(tracks, settled, k);
    }
  }

  /** The incremental path equals the one from scratch: tables that were in step before a write, and
      are settled by what the write touched, are the tables a rebuild of the written tracks gives. */
  lemma SettleEqualsRebuild(texts: Texts, before: Tables, tracks: Tracks, settled: Tracks,
                            albums: set<AlbumId>, editions: set<Edition>, ids: set<AlbumId>)
    requires InStep(texts, before)
    requires Covers(before.tracks, tracks, albums, editions)
    requires forall e :: e in editions ==> e.1 != ""
    requires settled == Settled(texts, tracks, editions)
    requires albums <= ids && DifferIn(tracks, settled, AlbumIdOf, ids)
    ensures Refreshed(texts, before.(tracks := settled), ids) == Rebuilt(texts, tracks)
  {
    TouchedEditionsSuffice(texts, before.tracks, tracks, albums, editions);
    WrittenAndSettledDiffer(before.tracks, tracks, settled, albums, editions, ids);
    RowsReplaced(before.tracks, settled, AlbumIdOf, AlbumRowFor(texts), ids);
    var after := (before.albums - ids) + Rows(settled, AlbumIdOf, AlbumRowFor(texts), ids);
    AlbumRowsDiffer(texts, before.albums, settled, ids);
    RowsReplaced(before.albums, after, ArtistIdOf, ArtistRowFor(texts), ArtistsTouched(before.albums, settled, ids));
  }
}
