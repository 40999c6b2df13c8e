/** The catalog has no memory: however writes are split into batches, and whatever Compilations
    formed and dissolved on the way, the tables are those one rebuild of the last facts gives. */
module CatalogHistory {
  import opened Catalog
  import opened CatalogStore
  import opened Grouping
  import opened Lists

  predicate Refilable(track: Track) {
    Untagged(track) && track.album != ""
  }

  /** A row as the scanner writes it: an untagged track is filed under its own artist. */
  ghost predicate AsRead(texts: Texts, track: Track) {
    Refilable(track) ==> track == FileUnder(texts, track, track.artist, track.artistSort)
  }

  ghost predicate AllAsRead(texts: Texts, outcomes: seq<Outcome>) {
    forall i :: 0 <= i < |outcomes| && outcomes[i].Inspected? ==> AsRead(texts, outcomes[i].row)
  }

  /** The row the scanner wrote, whatever album the track has been filed on since. */
  function Fact(texts: Texts, track: Track): Track {
    if Refilable(track) then FileUnder(texts, track, track.artist, track.artistSort) else track
  }

  function Facts(texts: Texts, tracks: Tracks): Tracks {
    map k | k in tracks :: Fact(texts, tracks[k])
  }

  /** A track filed as the scanner wrote it or as a Compilation refiled it. */
  ghost predicate Filable(texts: Texts, track: Track) {
    Refilable(track) ==>
      track == Fact(texts, track) || track == Refiled(texts, Fact(texts, track), true)
  }

  ghost predicate AllFilable(texts: Texts, tracks: Tracks) {
    forall k :: k in tracks ==> Filable(texts, tracks[k])
  }

  lemma RefiledForgets(texts: Texts, track: Track, compilation: bool)
    requires Filable(texts, track) && Refilable(track)
    ensures Refiled(texts, track, compilation) == Refiled(texts, Fact(texts, track), compilation)
    ensures Fact(texts, Refiled(texts, track, compilation)) == Fact(texts, track)
    ensures Filable(texts, Refiled(texts, track, compilation))
  {
  }

  lemma FactsKeepCompilations(texts: Texts, tracks: Tracks, edition: Edition)
    ensures IsCompilation(Facts(texts, tracks), edition) == IsCompilation(tracks, edition)
    ensures AllEditions(Facts(texts, tracks)) == AllEditions(tracks)
  {
    var facts := Facts(texts, tracks);
    forall k | k in tracks
      ensures InEdition(facts[k], edition) <==> InEdition(tracks[k], edition)
      ensures EditionOf(facts[k]) == EditionOf(tracks[k]) && facts[k].artist == tracks[k].artist
    {}
    assert Members(facts, edition) == Members(tracks, edition);
    assert ArtistsIn(facts, edition) == ArtistsIn(tracks, edition);
    assert AllEditions(facts) == AllEditions(tracks);
  }

  /** Filing track `k` as its edition in `tracks` says depends only on the facts. */
  ghost predicate ForgottenAt(texts: Texts, tracks: Tracks, settled: Tracks, settledFacts: Tracks, k: TrackId)
    requires k in tracks && k in settled && k in settledFacts
  {
    && settled[k] == settledFacts[k]
    && Fact(texts, settled[k]) == Fact(texts, tracks[k])
    && Filable(texts, settled[k])
  }

  lemma SettledAtForgets(texts: Texts, tracks: Tracks, k: TrackId)
    requires AllFilable(texts, tracks) && k in tracks
    ensures ForgottenAt(texts, tracks, Settled(texts, tracks, AllEditions(tracks)),
                        Settled(texts, Facts(texts, tracks), AllEditions(Facts(texts, tracks))), k)
  {
    hide IsCompilation, Refiled, Filable;
    var edition := EditionOf(tracks[k]);
    FactsKeepCompilations(texts, tracks, edition);
    if Refilable(tracks[k]) {
      assert edition in AllEditions(tracks);
      RefiledForgets(texts, tracks[k], IsCompilation(tracks, edition));
    }
  }

  lemma ForgottenEverywhere(texts: Texts, tracks: Tracks, settled: Tracks, settledFacts: Tracks)
    requires settled.Keys == tracks.Keys == settledFacts.Keys
    requires forall k :: k in tracks ==> ForgottenAt(texts, tracks, settled, settledFacts, k)
    ensures settled == settledFacts && Facts(texts, settled) == Facts(texts, tracks) && AllFilable(texts, settled)
  {
    forall k | k in tracks ensures settled[k] == settledFacts[k] && Fact(texts, settled[k]) == Fact(texts, tracks[k]) {
      assert ForgottenAt(texts, tracks, settled, settledFacts, k);
    }
    assert Facts(texts, settled).Keys == Facts(texts, tracks).Keys;
  }

  /** Settling depends on the facts alone, and loses none of them. */
  lemma SettledForgets(texts: Texts, tracks: Tracks)
    requires AllFilable(texts, tracks)
    ensures var settled := Settled(texts, tracks, AllEditions(tracks));
            && settled == Settled(texts, Facts(texts, tracks), AllEditions(Facts(texts, tracks)))
            && Facts(texts, settled) == Facts(texts, tracks) && AllFilable(texts, settled)
  {
    var settled := Settled(texts, tracks, AllEditions(tracks));
    var settledFacts := Settled(texts, Facts(texts, tracks), AllEditions(Facts(texts, tracks)));
    assert Facts(texts, tracks).Keys == tracks.Keys;
    forall k | k in tracks ensures ForgottenAt(texts, tracks, settled, settledFacts, k) {
      SettledAtForgets(texts, tracks, k);
    }
    ForgottenEverywhere(texts, tracks, settled, settledFacts);
  }

  lemma WrittenFacts(texts: Texts, tracks: Tracks, outcome: Outcome)
    requires AllFilable(texts, tracks)
    requires outcome.Inspected? ==> AsRead(texts, outcome.row)
    ensures Facts(texts, Written(texts, tracks, outcome)) == Written(texts, Facts(texts, tracks), outcome)
    ensures AllFilable(texts, Written(texts, tracks, outcome))
  {
  }

  lemma {:induction false} WrittenAllFacts(texts: Texts, tracks: Tracks, outcomes: seq<Outcome>)
    requires AllFilable(texts, tracks) && AllAsRead(texts, outcomes)
    ensures Facts(texts, WrittenAll(texts, tracks, outcomes)) == WrittenAll(texts, Facts(texts, tracks), outcomes)
    ensures AllFilable(texts, WrittenAll(texts, tracks, outcomes))
  {
    if outcomes != [] {
      var n := |outcomes| - 1;
      WrittenAllFacts(texts, tracks, outcomes[..n]);
      WrittenFacts(texts, WrittenAll(texts, tracks, outcomes[..n]), outcomes[n]);
    }
  }

  lemma {:induction false} WrittenAllConcat(texts: Texts, tracks: Tracks, a: seq<Outcome>, b: seq<Outcome>)
    ensures WrittenAll(texts, tracks, a + b) == WrittenAll(texts, WrittenAll(texts, tracks, a), b)
  {
    if b == [] {
      assert a + b == a;
    } else {
      var n := |b| - 1;
      assert (a + b)[..|a + b| - 1] == a + b[..n];
      WrittenAllConcat(texts, tracks, a, b[..n]);
    }
  }

  // ---- Whole runs ----

  /** The tracks after a run of batches, each settled before the next. */
  ghost function AfterBatches(texts: Texts, tracks: Tracks, batches: seq<seq<Outcome>>): Tracks {
    if batches == [] then tracks
    else
      var before := AfterBatches(texts, tracks, batches[..|batches| - 1]);
      Rebuilt(texts, WrittenAll(texts, before, batches[|batches| - 1])).tracks
  }

  ghost predicate AllBatchesAsRead(texts: Texts, batches: seq<seq<Outcome>>) {
    forall i :: 0 <= i < |batches| ==> AllAsRead(texts, batches[i])
  }

  lemma {:induction false} FlattenedAsRead(texts: Texts, batches: seq<seq<Outcome>>)
    requires AllBatchesAsRead(texts, batches)
    ensures AllAsRead(texts, Flat(batches))
  {
    if batches != [] {
      var n := |batches| - 1;
      FlattenedAsRead(texts, batches[..n]);
      assert batches == batches[..n] + [batches[n]];
      FlatMore(batches[..n], batches[n]);
    }
  }

  lemma {:induction false} BatchesKeepFacts(texts: Texts, tracks: Tracks, batches: seq<seq<Outcome>>)
    requires AllFilable(texts, tracks) && AllBatchesAsRead(texts, batches)
    ensures AllFilable(texts, AfterBatches(texts, tracks, batches))
    ensures Facts(texts, AfterBatches(texts, tracks, batches)) == WrittenAll(texts, Facts(texts, tracks), Flat(batches))
  {
    if batches != [] {
      var n := |batches| - 1;
      var before := AfterBatches(texts, tracks, batches[..n]);
      BatchesKeepFacts(texts, tracks, batches[..n]);
      assert batches == batches[..n] + [batches[n]];
      FlatMore(batches[..n], batches[n]);
      WrittenAllFacts(texts, before, batches[n]);
      SettledForgets(texts, WrittenAll(texts, before, batches[n]));
      WrittenAllConcat(texts, Facts(texts, tracks), Flat(batches[..n]), batches[n]);
    }
  }

  /** The catalog after any run of settled batches is the one a single rebuild gives of all their
      writes at once. */
  lemma CatalogHasNoMemory(texts: Texts, tracks: Tracks, batches: seq<seq<Outcome>>)
    requires AllFilable(texts, tracks) && AllBatchesAsRead(texts, batches)
    ensures Rebuilt(texts, AfterBatches(texts, tracks, batches))
      == Rebuilt(texts, WrittenAll(texts, tracks, Flat(batches)))
  {
    BatchesKeepFacts(texts, tracks, batches);
    FlattenedAsRead(texts, batches);
    WrittenAllFacts(texts, tracks, Flat(batches));
    SettledForgets(texts, AfterBatches(texts, tracks, batches));
    SettledForgets(texts, WrittenAll(texts, tracks, Flat(batches)));
  }

  ghost predicate AllWellFormed(batches: seq<seq<Outcome>>) {
    forall i :: 0 <= i < |batches| ==> WellFormed(batches[i])
  }

  lemma {:induction false} BatchesKeepIds(texts: Texts, tracks: Tracks, batches: seq<seq<Outcome>>)
    requires Identified(tracks) && AllWellFormed(batches)
    ensures Identified(AfterBatches(texts, tracks, batches))
  {
    if batches != [] {
      var n := |batches| - 1;
      BatchesKeepIds(texts, tracks, batches[..n]);
      var written := WrittenAll(texts, AfterBatches(texts, tracks, batches[..n]), batches[n]);
      WrittenAllIsIdentified(texts, AfterBatches(texts, tracks, batches[..n]), batches[n]);
      SettledIsIdentified(texts, written, AllEditions(written));
    }
  }

  /** An album row shows the title and Album Artist of the track. */
  ghost predicate ShownBy(albums: Albums, track: Track) {
    && track.albumId in albums
    && albums[track.albumId].title == track.album && albums[track.albumId].albumArtist == track.albumArtist
  }

  /** After any run of batches every track is on an album whose row shows its title and its Album Artist, and no album
      is without a track. */
  lemma AlbumsShowTheirTracks(texts: Texts, tracks: Tracks, batches: seq<seq<Outcome>>)
    requires Identified(tracks) && AllWellFormed(batches)
    ensures var tables := Rebuilt(texts, AfterBatches(texts, tracks, batches));
            && (forall k :: k in tables.tracks ==> ShownBy(tables.albums, tables.tracks[k]))
            && (forall a :: a in tables.albums ==> exists k :: k in tables.tracks && tables.tracks[k].albumId == a)
  {
    var after := AfterBatches(texts, tracks, batches);
    BatchesKeepIds(texts, tracks, batches);
    SettledIsIdentified(texts, after, AllEditions(after));
    var settled := Settled(texts, after, AllEditions(after));
    hide Settled, Identified, AlbumRowFor;
    var albums := AllRows(settled, AlbumIdOf, AlbumRowFor(texts));
    forall k | k in settled ensures ShownBy(albums, settled[k]) {
      AlbumColumnsAreShared(texts, settled, k);
      assert AlbumIdOf(settled[k]) in Ids(settled, AlbumIdOf);
    }
    forall a | a in albums ensures exists k :: k in settled && settled[k].albumId == a {
      var k := RowOfGroup(settled, AlbumIdOf, a);
    }
  }
}
