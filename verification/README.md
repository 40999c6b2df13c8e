# Native audio player: a verified model

The player is a Backend in Rust, a Host around it and a Renderer in TypeScript. This project models the parts of it
that keep state over unbounded runs, and proves what each of them is for.

- **The catalog** (`Ordering`, `Grouping`, `Catalog`, `Summaries`, `CatalogColumns`, `CatalogStore`, `CatalogHistory`):
  tracks and the album and artist tables that summarise them. Writes settle only what they touched; the result is always
  that of a rebuild from scratch, Compilations that form and dissolve included.
- **The PCM queue** (`PcmQueue`): a bounded ring between a decode thread and the output callback, as interleaved
  atomic steps of the producer, the consumer and whoever cancels.
- **The output** (`Turns`, `Slots`, `Output`): the callback that fills the device's buffers, switches to queues that are
  handed over, chains the next one inside a buffer, counts frames and reports ends; and the stream's side of it. Decode
  threads and the stream's owner act between any two of the callback's looks at what they share. What happened is kept
  as a turn per pipeline: the slots it filled, its report and how it ended.
- **Seeking and resampling** (`Timebase`, `Resampling`, `Decoding`, `DecodeTask`, `Seeking`,
  `SeekPlayback`): exact frame counts, the decode thread's run, and why the first frame after a seek is the one
  announced.
- **Replication** (`Messages`, `Replication`, `Channels`): how Backend state reaches the Renderer through a coalescing
  dispatcher, a channel that may be replaced, early messages, command replies and a revision filter; and which sessions
  a change does not reach.
- **The playback queue** (`Entries`, `PlaybackQueue`, `QueuePasses`, `QueueWorker`): two orders of the same entries
  under every edit and every choice of the random generator, also when none of them is current.
- **Waveforms** (`Chunking`, `Waveform`, `WaveformService`, `WaveformVersions`): analysis in parallel, its reduction and
  cached form, the single slot of work behind the topic, and which version of a file it shows.
- **The meter** (`MeterHub`, `MeterTap`, `MeterShift`, `FrameBatching`): subscriptions, the ring of the newest stream,
  and what is copied into it.
- **Transport** (`Transport`): commands and seeks that arrive while one is in flight.

`Options`, `Arithmetic` and `Lists` hold what several of them need.

Concurrent parts are state machines over the steps the original makes indivisible; methods with loops and objects with
fields are methods and classes, proved against functions and predicates whose own properties are lemmas.

## Where the code does less than it says

Each of these is a condition that is proved, with the inputs that miss it.

- A producer of the PCM queue can sleep for good over a ring of one frame with three or more channels, because the
  ring counts as low while a frame still does not fit (`PcmQueue.NoLostWakeUp`). The output never opens such a ring.
- The resampler's flush gives up if the delay is whole chunks and longer than the source fills
  (`Resampling.Resampler.Flush`). Some source makes it fail exactly if the delay is whole chunks and more than one of
  them; with two chunks one source frame is enough (`Resampling.DelaysThatFail`). How long the conversion core's delay
  is, the model does not know.
- The meter's tap does not follow the frames that go by while nobody listens. It copies the first two channels,
  whatever is played and whenever listeners come and go, exactly if the channel count divides 512
  (`MeterTap.AlwaysRightExactly`). Otherwise (5.1 surround, say) it is off by the samples it missed, and what it hears
  afterwards never changes that (`MeterTap.TapIsOffByWhatItMissed`, `MeterShift.ListenLateAndOn`).
- `peek_natural` names no entry before a shuffled queue wraps, also when the next one is already certain: with one
  entry, or with two of which one is current (`QueuePasses.DecidedBeforeAWrap`).
- `set_shuffle` keeps the current entry, but a queue without a current one (its last entries were removed) gets one: the
  last of the arranged order when it is turned on, the first when it is turned off (`PlaybackQueue.Queue.SetShuffle`,
  reached in `QueueWorker.ShuffleMakesCurrent`).
- `enqueue` behind the current entry panics exactly if there are entries and none is current
  (`PlaybackQueue.Queue.Enqueue`, reached in `QueueWorker.EnqueueBehindNothing`). Its one caller looks first and starts
  a new queue instead, so the program does not (`QueueWorker.EnqueueCommand`).
- A seek that waits for the one in flight is dropped if that one fails: the newest seek is not sent exactly if a failure
  came while it waited (`Transport.Seeks.Rejected`, `Transport.NewestIsSentExactly`, `Transport.SecondIsNeverSent`).
- Of two sessions that connect at once, the one whose channel is registered last receives the messages, which need not
  be the newer one. Every copy converges while the session whose channel is in use lives (`Replication.Converges`). A
  change reaches the Renderer's copy exactly if that session is active and its call has ended, well or not
  (`Channels.ChangeArrivesExactly`); so another session that is connected can be left behind, all quiet, exactly if that
  one was stopped, failed to connect or still waits (`Channels.LeftBehindExactly`).
- A request for a waveform is served by a job taken up after it exactly if no job for its file was running uncancelled
  (`WaveformVersions.ServedByItsOwnJobExactly`); otherwise it joins that job. If the file was replaced and loaded again,
  and its new version is not shown yet, joining can lead to it exactly if the job has yet to find out its version, or
  has read the new one and may still publish it (`WaveformVersions.CanEndRightExactly`). A job that has published the
  earlier version leaves nothing shown (`WaveformVersions.ReplacedBehindTheJob`); one that has yet to leaves the earlier
  version's waveform under the new Playback (`WaveformVersions.FirstVersionShown`). Another version than the loaded one
  is never shown, not even for a while, exactly if no job in flight, cancelled or not, has read one that it may still
  publish (`WaveformVersions.NeverAnotherVersionExactly`).
- A seek lands on its frame exactly if that is the first frame that is not before the tick the demuxer says is
  required, given packets that begin where it says they do (`SeekPlayback.SeekLandsOnItsFrame`). The time it is asked
  for is cut to nanoseconds. Where a tick is a frame, rounding it to the nearest tick finds every frame again
  (`Seeking.NearestTickIsTheFrame`); rounding down would be one frame early except on whole nanoseconds
  (`Seeking.TickBelowIsTheFrameExactly`). Which of the two a demuxer does is not part of this model.

## Model

| member | source | states |
|---|---|---|
| `Summaries.SettleEqualsRebuild` | backend/src/library/summary.rs:53-234 | Tables in step before a write, settled by what the write touched (old and new album of every changed track, and its edition), are exactly the tables a rebuild of the written tracks computes: tracks, albums and artists, with those that appear, vanish or move |
| `Summaries.TouchedEditionsSuffice` | backend/src/library/summary.rs:57-99 | Settling only the touched editions files every track as settling all of them would |
| `Summaries.SettledOneMore` | backend/src/library/summary.rs:91-99 | Editions are settled independently, so the order they are taken in does not matter |
| `Summaries.SettledTwice` | backend/src/library/summary.rs:122-194 | Settling settled tracks changes nothing, so a second pass finds nothing to do |
| `Summaries.RebuiltIsInStep` | backend/src/library/summary.rs:101-118 | A rebuild of rebuilt tables gives the same tables |
| `Summaries.AlbumRowsDiffer` | backend/src/library/summary.rs:197-216 | The artists the refresh gathers, before the old album rows go and from the tracks, cover every album row that it changes |
| `CatalogColumns.CompilationHasTwo` | backend/src/library/summary.rs:160-164 | An edition is a Compilation exactly if two of its untagged tracks name different artists |
| `CatalogColumns.SettledEdition` | backend/src/library/summary.rs:122-194 | A settled edition track by track: which of its columns changed, and to what |
| `CatalogColumns.AlbumRowIs` | backend/src/library/summary.rs:27-38 | An album's row counts its tracks, has their least year if any has one, the least sort texts, and the cover of the track that is first by disc, number and id among those with artwork |
| `CatalogColumns.ArtistRowIs` | backend/src/library/summary.rs:42-51 | An artist's row counts the albums and the tracks under the name, and has the cover of the first album, titled ones first |
| `CatalogColumns.TotalIsCount` | backend/src/library/summary.rs:44-45 | The sum of the albums' counts is the number of tracks on them |
| `CatalogColumns.RebuiltSays` | backend/src/library/summary.rs:101-118 | What a rebuild leaves in every row of the three tables, from the tracks alone |
| `CatalogColumns.SameAlbumExactly` | backend/src/library/keys.rs:138-145 | Two tracks are on one album exactly if Album Artist and title agree and, where there is a title, their absolute directories do |
| `CatalogColumns.BelowRootIs` | backend/src/library/keys.rs:140-143 | The directory below the root is what follows the first slash, or nothing without one |
| `CatalogColumns.TextLeqIs` | backend/src/library/summary.rs:46-49 | Texts are ordered by their first difference, and a prefix comes first |
| `CatalogStore.AlbumColumnsAreShared` | backend/src/library/summary.rs:27-41 | All tracks on one album id share the title and Album Artist its row shows, so it does not matter which track the row reads them from |
| `CatalogStore.SettledIsIdentified` | backend/src/library/summary.rs:160-190 | Refiled tracks still carry the id of the album they are filed under |
| `CatalogStore.WrittenAllIsIdentified` | backend/src/library/scanner/persist.rs:206-261 | A batch of writes keeps every track's album id that of its Album Artist, title and directory |
| `CatalogStore.Touched.StoredTrack` | backend/src/library/summary.rs:62-80 | Notes the album and the edition of the track as stored; for an unknown track nothing is noted |
| `CatalogStore.Touched.Album` | backend/src/library/summary.rs:82-87 | Adds the album, and the edition only when there is a title |
| `CatalogStore.Store.SettleCompilation` | backend/src/library/summary.rs:122-194 | Files exactly the untagged tracks of one edition, all under Various Artists if two of them name different artists, otherwise each under its artist, with the album, sort and search texts to match; all other tracks and columns stay; notes every album that loses or gains one |
| `CatalogStore.Store.FileTracks` | backend/src/library/summary.rs:158-190 | The loop over the rows files each of them and no other track |
| `CatalogStore.Store.Settle` | backend/src/library/summary.rs:91-99 | The transaction's tables become those of a rebuild: every track filed as its edition asks, and every album and artist row with the columns its tracks give |
| `CatalogStore.Store.Refresh` | backend/src/library/summary.rs:197-234 | Going by chunks of 500 replaces exactly the rows of these albums and of every artist they were or are under |
| `CatalogStore.Store.RefreshAlbums` | backend/src/library/summary.rs:218-226 | Deleting and inserting chunk by chunk equals replacing all rows at once |
| `CatalogStore.Store.RefreshArtists` | backend/src/library/summary.rs:227-233 | The same for the artists, computed from the new album rows |
| `CatalogStore.Store.Rebuild` | backend/src/library/summary.rs:101-118 | Computes the tables from the tracks alone, whatever was in them: filed, counted, dated and covered as they ask; and leaves them in step |
| `CatalogStore.Store.WriteBatch` | backend/src/library/scanner/persist.rs:206-261 | A batch of outcomes leaves the tables a rebuild of the written tracks gives, column by column, and in step for the next batch |
| `CatalogStore.Store.WriteOutcome` | backend/src/library/scanner/persist.rs:367-516 | Each kind of outcome changes the one track it names and notes it as it was and as it is |
| `CatalogStore.WrittenColumns` | backend/src/library/scanner/persist.rs:367-516 | What each kind of outcome leaves in the track it names; no other track changes |
| `CatalogStore.LastWriteStays` | backend/src/library/scanner/persist.rs:206-261 | A file inspected and not named again in the batch is stored as it was last inspected |
| `CatalogHistory.SettledForgets` | backend/src/library/summary.rs:122-194 | Settling depends only on what the scanner wrote, not on where earlier Compilations had filed the tracks, and loses nothing of it |
| `CatalogHistory.BatchesKeepFacts` | backend/src/library/scanner/persist.rs:206-261 | After any run of batches the tracks still hold exactly what was last written of each |
| `CatalogHistory.CatalogHasNoMemory` | backend/src/library/summary.rs:89-118 | However writes are split into settled batches, the tables are those of one rebuild of all writes at once |
| `CatalogHistory.AlbumsShowTheirTracks` | backend/src/library/summary.rs:27-41 | After any run of well-formed batches every track is on an album whose row shows its title and its Album Artist, and no album row is without a track |
| `PcmQueue.Writable` | backend/src/audio/pcm_queue.rs:111-117 | A push writes whole frames only, and nothing only when no frame fits or none is offered |
| `PcmQueue.InvKept` | backend/src/audio/pcm_queue.rs:111-180 | Every atomic step of producer, consumer and canceller keeps conservation, frame alignment, the pending wake of a cancellation, and that a producer committed to waiting is covered |
| `PcmQueue.NothingLostOrInvented` | backend/src/audio/pcm_queue.rs:111-180 | In every interleaving what was written is what was popped followed by the ring, in whole frames; once the end is seen everything written was popped |
| `PcmQueue.DeclaredIsFinal` | backend/src/audio/pcm_queue.rs:146-180 | Once the consumer saw the end nothing is ever written or popped again |
| `PcmQueue.EndIsReached` | backend/src/audio/pcm_queue.rs:146-180 | Once the producer has finished, the consumer's own steps, at most seven, play all that was written and declare the end |
| `PcmQueue.NoLostWakeUp` | backend/src/audio/pcm_queue.rs:121-172 | No interleaving leaves the producer asleep over a drained ring with no wake on its way, if and only if the ring holds two frames or frames have at most two samples |
| `PcmQueue.OneFrameLosesTheWake` | backend/src/audio/pcm_queue.rs:74-102 | A one-frame ring of three or more channels does lose the wake: a concrete run |
| `PcmQueue.SleepsOnlyOverHalfFull` | backend/src/audio/pcm_queue.rs:121-172 | A producer without a pending wake sleeps only while the ring is at least half full or the consumer is between taking it low and sending |
| `PcmQueue.WakesOnCrossing` | backend/src/audio/pcm_queue.rs:157-172 | The consumer sends a wake exactly when what it popped took the ring from half full or more to below half |
| `PcmQueue.OutputQueuesKeepTheirWakes` | backend/src/audio/output.rs:580-596 | The two-second queues the output opens never lose a wake |
| `PcmQueue.CancelledWriteReturns` | backend/src/audio/pcm_queue.rs:62-72 | After a cancel and its wake, a write is never blocked and returns within six of its own steps: cancelled, unless everything was written already |
| `PcmQueue.CancelWakes` | backend/src/audio/pcm_queue.rs:62-72 | A cancel is made once and leaves a wake behind |
| `Output.OutputStream.Fill` | backend/src/audio/output.rs:700-742 | One callback fills the whole buffer: slot by slot the next sample, rendered as asked, or silence, and each sample's time of end less the buffer's, times the sample rate, is the whole frames up to it; earlier turns stay as they were; a queue handed off replaces the playing one; a pipeline that had ended and is not replaced is reported by the end of it, with the time its last sample ends; the position report names the frames of the last segment and when its first is heard, also of a chained one |
| `Output.OutputStream.PlayThrough` | backend/src/audio/output.rs:707-731 | The loop plays the queue and, once it ran out for good, the chained one within that buffer; at most one turn ends, and its end is reported; an underrun is never padded where the end was declared and a queue follows |
| `Output.OutputStream.PlayUntilStopped` | backend/src/audio/output.rs:711-717 | The loop stops only at a full buffer, without a chained queue, or with a queue that has not ended |
| `Output.OutputStream.PlaySegment` | backend/src/audio/output.rs:711-716 | A segment plays the next samples of its queue into the next slots, each ending as many frames behind the buffer's time as lie up to it, and ends on a frame |
| `Output.OutputStream.WriteQueueSamples` | backend/src/audio/output.rs:797-818 | Popping in chunks of 512 plays a run of the queue, each sample once and rendered, leaves the rest of the buffer alone, and ends on a frame boundary although chunks do not |
| `Output.OutputStream.WriteChunks` | backend/src/audio/output.rs:802-817 | However many chunks it takes, the samples are consecutive, and a short pop means the queue was drained |
| `Output.OutputStream.PopSamples` | backend/src/audio/pcm_queue.rs:157-172 | A pop gives the next samples of the queue, fewer than asked only when it is drained |
| `Output.OutputStream.CountSegment` | backend/src/audio/output.rs:718-722 | Counting a segment makes the frame position times channels exactly the samples consumed, notes the time the last one is heard, and leaves a true span to report |
| `Output.OutputStream.Advance` | backend/src/audio/output.rs:718-730 | The ended pipeline is counted and reported, then the chained one starts from frame zero at the time behind it |
| `Output.OutputStream.TakeHandoff` | backend/src/audio/output.rs:754-778 | The queue handed off last replaces the playing one and starts from zero; a chained queue is kept only for the pipeline that is playing |
| `Output.OutputStream.TakeChain` | backend/src/audio/output.rs:768-777 | The newest chain, or its withdrawal, is what counts, and only if it follows the pipeline that is playing |
| `Output.OutputStream.ChainToNext` | backend/src/audio/output.rs:782-793 | The chained queue becomes the playing one, with its count, times and report reset |
| `Output.OutputStream.PlayNext` | backend/src/audio/output.rs:759-767 | The turn that ends keeps its record; the next one belongs to a pipeline that never played before |
| `Output.OutputStream.ReportCompletion` | backend/src/audio/output.rs:820-836 | The end is reported at most once, only when the producer finished and everything was popped, and it is the time the last sample ends, noted or not; and it is reported if the queue had ended before |
| `Output.OutputStream.IsFinished` | backend/src/audio/pcm_queue.rs:176-180 | Whatever the producer does between the two looks, a yes means that it had finished and all was popped |
| `Output.OutputStream.ReportPositionAndEnd` | backend/src/audio/output.rs:735-741 | The published span ends at the frames consumed and carries the time its first frame is heard; everything the stream may read stays below them; the end is reported if the queue had ended |
| `Output.OutputStream.Publish` | backend/src/audio/output.rs:97-101 | A report is left or skipped, never torn |
| `Output.OutputStream.ReadPosition` | backend/src/audio/output.rs:294-314 | The position never decreases, never exceeds the frames consumed of the stream's pipeline, keeps to the given length, and is read off the newest report of that pipeline |
| `Output.OutputStream.SwitchQueue` | backend/src/audio/output.rs:321-327 | Hands the next queue over, withdraws a chained one, forgets the old anchor and starts the position at zero, without touching what plays |
| `Output.OutputStream.QueueNext` | backend/src/audio/output.rs:329-334 | The chain names the pipeline it follows; a newer one replaces it |
| `Output.OutputStream.ClearNext` | backend/src/audio/output.rs:336-338 | Withdraws the chain and nothing else |
| `Output.OutputStream.AdoptNext` | backend/src/audio/output.rs:340-344 | Reports of the next pipeline count from its first frame |
| `Output.OutputStream.DevicePlaysWhatWasPushed` | backend/src/audio/output.rs:700-818 | At any time what the device was given, silence aside, is what each pipeline contributed, in order: all of what it was pushed if it was followed, a prefix if it was replaced or is playing |
| `Output.OutputStream.EveryTurnIsFaithful` | backend/src/audio/output.rs:700-836 | Of every pipeline that ever played: each slot is its next sample or an underrun, no silence lies between a declared end and the queue that follows, and its report is truthful |
| `Output.PositionsKept` | backend/src/audio/output.rs:294-314 | Positions that were below the frames played stay below them as play goes on |
| `Slots.EndIsOnTime` | backend/src/audio/output.rs:904-921 | The end of a run of samples lies behind its start by its whole frames over the sample rate: times the rate, exactly the frames |
| `Slots.PlayedFills` | backend/src/audio/output.rs:797-818 | A run played from a slot on fills these slots, each sample ending on its frame's time |
| `Slots.FillsOn` | backend/src/audio/output.rs:707-731 | Parts of one buffer, whatever pipelines they belong to, fill it as a whole: the time goes on across the seam |
| `Slots.EndOnTime` | backend/src/audio/output.rs:700-742 | A pipeline reported as ended in a callback that played its last sample is reported with the time of the slot that sample is in |
| `Turns.DevicePlaysTheTurns` | backend/src/audio/output.rs:700-818 | Gapless conservation over a whole run |
| `Turns.TurnPlaysAPrefix` | backend/src/audio/output.rs:797-818 | A faithful turn plays exactly the samples popped from its queue, in order, each once |
| `Turns.SegmentEndsOnAFrame` | backend/src/audio/output.rs:797-818 | A segment of whole-frame pushes that is full or drained is whole frames |
| `Turns.EndsAddUp` | backend/src/audio/output.rs:904-921 | The end of a segment that starts where another ended is the end of both together |
| `Turns.PlayedFramePosition` | backend/src/audio/output.rs:882-898 | The position lies between the last one and the end of the span, and below the given length |
| `Turns.PositionFollowsTheClock` | backend/src/audio/output.rs:877-898 | A later clock never gives an earlier position |
| `Turns.PositionByTheClock` | backend/src/audio/output.rs:877-898 | The position is the span's start before it is heard, and then the whole frames the clock has gone by, up to the span's end: no frame early and less than one late |
| `Turns.PlayedNeverShrinks` | backend/src/audio/output.rs:700-742 | Going on never lowers what any pipeline has played |
| `Timebase.RescaleSplitsAtChunks` | backend/src/audio/timebase.rs:12-22 | For all inputs, rescaling a position equals rescaling the part up to any whole number of input chunks plus the rest, up to the saturation of the whole |
| `Timebase.RescaleLosesAFrame` | backend/src/audio/timebase.rs:12-22 | Split anywhere else it can lose a frame: a concrete input |
| `Timebase.ChunksAddUp` | backend/src/audio/output_processing.rs:203-214 | Behind whole chunks, counts at the other rate add without rounding, down or up |
| `Timebase.MillisRoundTrip` | backend/src/audio/timebase.rs:3-10 | Milliseconds read back from their frame are never late, and early by less than a frame |
| `Timebase.ConvertsDown` | backend/src/audio/timebase.rs:3-22 | A converted count times the old rate is at most the count times the new one, and short of it by less than one unit |
| `Resampling.Resampler.Push` | backend/src/audio/output_processing.rs:144-156 | Buffers the frame; what comes out continues what came out before, whatever the packets |
| `Resampling.Resampler.Process` | backend/src/audio/output_processing.rs:158-201 | A chunk comes out but for the delay that is left; nothing comes out and no delay is left exactly when that delay was one chunk |
| `Resampling.Resampler.Flush` | backend/src/audio/output_processing.rs:203-242 | In all exactly ceil(total * output rate / input rate) frames come out, consecutive from the delay, so truncation only removes what the flush appended; it fails if and only if the delay is whole chunks and longer than everything the source fills; flushing again gives nothing |
| `Resampling.Resampler.FlushSilence` | backend/src/audio/output_processing.rs:224-239 | The loop ends, with delay left plus frames missing as its measure, and fails exactly then |
| `Resampling.ShortDelaysFlush` | backend/src/audio/output_processing.rs:203-242 | A delay shorter than a chunk never fails |
| `Resampling.DelaysThatFail` | backend/src/audio/output_processing.rs:203-242 | Some source makes the flush fail exactly when the delay is whole chunks, more than one; two chunks of delay and one source frame do |
| `Resampling.ChunksWithinExpected` | backend/src/audio/output_processing.rs:215-223 | What full chunks put out before the flush never exceeds the expected count |
| `Decoding.Processor.Convert` | backend/src/audio/output_processing.rs:269-290 | Refuses after the end, on partial frames and on samples that are not finite, changing nothing; otherwise what is put out continues what was put out before |
| `Decoding.Processor.Flush` | backend/src/audio/output_processing.rs:292-304 | Everything put out is what the source becomes, however it was cut; after the end nothing more comes |
| `Decoding.Processor.WholeIs` | backend/src/audio/output_processing.rs:269-304 | What a source becomes: each frame mixed, or at another rate as many frames as it is worth, rounded up, in a row behind the delay |
| `DecodeTask.Task.Run` | backend/src/audio/playback/decode_worker.rs:131-165 | The end is declared only with the whole converted source behind the discarded frames in the queue; whatever stops it earlier, the queue holds a prefix of it, and why it stopped is told apart; the worker hears of the prebuffer once, as soon as the queue was seen with enough frames, at the end otherwise |
| `DecodeTask.Task.Finish` | backend/src/audio/playback/decode_worker.rs:154-160 | At the end of the stream the rest is flushed and queued, and a shorter file is announced as ready all the same |
| `DecodeTask.Task.ProcessPacket` | backend/src/audio/playback/decode_worker.rs:167-170 | A packet goes on where the last one ended, or stops the task |
| `DecodeTask.Task.WriteConverted` | backend/src/audio/playback/decode_worker.rs:172-187 | Queues what is left behind the discarded frames, in order; a cancelled wait leaves a prefix; the worker has heard of the prebuffer exactly if it had, or the queue was seen with enough frames |
| `DecodeTask.Task.DiscardPrefix` | backend/src/audio/playback/decode_worker.rs:196-204 | Drops what is still to be dropped and remembers the rest |
| `DecodeTask.Task.NotifyPrebuffer` | backend/src/audio/playback/decode_worker.rs:189-194 | Tells the worker the first time only |
| `Seeking.SeekPrerollFrames` | backend/src/audio/output_processing.rs:306-320 | Decoding starts on a chunk: at the beginning, or the warm-up and less than a chunk more before the target |
| `Seeking.PrerollCoversTheDelay` | backend/src/audio/output_processing.rs:306-320 | From the rates alone: the preroll is the whole target, or four chunks and at least the delay in source frames; and less than a chunk and a frame more |
| `Seeking.SeekIsWarm` | backend/src/audio/playback/pipeline.rs:168-223 | Unless decoding starts at the beginning, the frames dropped cover the core's delay and four of its chunks, so the first one kept comes of a warm core |
| `Seeking.SeekLandsExactly` | backend/src/audio/playback/pipeline.rs:168-223 | For every target the discarded frames end exactly at the announced output frame, and the whole ends where playing from the beginning would |
| `Seeking.SeekQueues` | backend/src/audio/playback/pipeline.rs:192-244 | The frames queued after a seek are the output frames from the announced one to the file's last, each in its place; none if it lies behind the end |
| `Seeking.SeekWithoutResampling` | backend/src/audio/playback/pipeline.rs:192-216 | At equal rates the announced frame is the target itself |
| `Seeking.WholeFramesDropped` | backend/src/audio/playback/pipeline.rs:242-244 | Dropping frames times channels samples drops exactly those frames |
| `Seeking.DiscardLoop` | backend/src/audio/decoding.rs:232-261 | The loop lands on exactly the asked frame, with a first packet that is not empty, unless the file ends before it |
| `Seeking.FramesCoverTheDelta` | backend/src/audio/decoding.rs:341-367 | The fewest frames that cover the time between two timestamps; refused exactly when the seek overshot or a number does not fit its width |
| `SeekPlayback.SeekLandsOnItsFrame` | backend/src/audio/decoding.rs:230-237 | The frames dropped end at the chosen start exactly when it is the first frame not before the required timestamp |
| `Seeking.NearestTickIsTheFrame` | backend/src/audio/decoding.rs:207-214 | Where a tick is a frame, as in the time base the decoder falls back to, the nanoseconds it asks for round back to every frame |
| `Seeking.TickBelowIsTheFrameExactly` | backend/src/audio/decoding.rs:207-214 | Rounded down they give the frame exactly if it lies on a whole nanosecond, and the one before it otherwise |
| `SeekPlayback.SeekAndPlay` | backend/src/audio/decoding.rs:203-261 | From the request to the queue, with the frames to drop taken from the demuxer's two timestamps: refused when it failed or overshot; a finished decode queued what comes of the file from the frame landed on; if that is the chosen start, the queue holds the output frames from the announced one to the end of the file |
| `Messages.Versioned.Update` | backend/src/messages.rs:33-36 | Each change is one revision, and the value is the one of that revision |
| `Messages.Replica.Accept` | src/lib/native/replica.svelte.ts:15-21 | Takes exactly what is newer than what it holds; the revision held never decreases and is at least the one offered |
| `Messages.BatchMessages` | src-tauri/src/session.rs:125-149 | The n-th occurrence to arrive is the n-th message; then every changed topic once in the declared order, with the value read; then the position; and nothing else |
| `Messages.OccurrencesInOrder` | src-tauri/src/session.rs:132-142 | The place of an occurrence among the messages is the number of occurrences before it |
| `Messages.OrderedHasAll` | src-tauri/src/session.rs:130-144 | Exactly the changed topics are sent |
| `Messages.OrderedByRank` | backend/src/messages.rs:39-47 | No topic twice, and in the declared order |
| `Replication.InvKept` | src-tauri/src/session.rs:75-149 | Every step of services, dispatcher, sessions and command replies keeps that all versions are genuine and the newest of each topic is held or underway |
| `Replication.StaysTruthful` | src-tauri/src/session.rs:75-149 | Whatever is in flight or kept is the value the Backend held at that revision |
| `Replication.StaysReaching` | src/lib/shell/native-session.svelte.ts:55-131 | For the session whose channel is in use, the newest value of a topic is held, or will be sent, or is on its way |
| `Replication.Converges` | src-tauri/src/session.rs:75-149 | Once nothing of a topic is underway, the connected session's copy is the Backend's current value, after any interleaving of changes, batches, replaced channels, early messages, failed sessions and replies |
| `Replication.DeliveriesConverge` | src-tauri/src/session.rs:95-149 | From any reachable state, deliveries alone, no more of them than what is underway weighs, bring every copy of a connected session to the current values: nothing is stuck |
| `Replication.CopiesAreGenuine` | src/lib/native/replica.svelte.ts:15-21 | After any run a copy holds a value the Backend held, at its revision |
| `Replication.RevisionsGrow` | src/lib/native/replica.svelte.ts:15-21 | No step lowers a copy's revision |
| `Replication.AcceptIsPerTopic` | src/lib/native/replica.svelte.ts:15-21 | The page's copies behave as one replica for each topic |
| `Replication.RepliesAndReloads` | src-tauri/src/session.rs:75-93 | A command's reply carries the newest version; a reload leaves the page without copies and every session inactive |
| `Replication.OrderDoesNotMatter` | src/lib/playback/playback.svelte.ts:208-229 | The same versions in any order leave the same copies |
| `Channels.ChangeArrivesExactly` | src-tauri/src/session.rs:95-149 | With all quiet, the next change goes through and reaches the Renderer's copy exactly if the session whose channel is in use is active and its call has ended, well or not; one that waits keeps it, a stopped one drops it |
| `Channels.LeftBehindExactly` | src-tauri/src/commands/session.rs:15-21 | A reachable quiet state in which a connected session lacks a change exists exactly if the channel in use is that of a session that was stopped, failed to connect or still waits |
| `Channels.StoppedLeavesBehind` | src/lib/shell/native-session.svelte.ts:55-131 | A run in which two sessions connect, the older registers last and is stopped, and the newer misses the next change |
| `Channels.RefusedLeavesBehind` | src/lib/shell/native-session.svelte.ts:55-131 | The same with an older session whose call fails |
| `Replication.NewestStays` | src/lib/shell/native-session.svelte.ts:80-93 | Applying the answer and then the early messages never loses the newest value among them |
| `PlaybackQueue.Queue.Replace` | backend/src/audio/playback/queue.rs:149-169 | New entries with new ids in the given order, the chosen one current, first in a shuffled order; untouched on error |
| `PlaybackQueue.Queue.Restore` | backend/src/audio/playback/queue.rs:173-182 | The previous queue under the present settings, with its current entry; ids go on from the larger counter |
| `PlaybackQueue.Queue.ClearUpcoming` | backend/src/audio/playback/queue.rs:191-210 | Removes exactly the upcoming entries from both orders and keeps the current one |
| `PlaybackQueue.Queue.RemoveEntries` | backend/src/audio/playback/queue.rs:215-234 | Removes the same ids from both orders; what stayed of the entries before the current one is before it, so the current entry stays current or the next survivor becomes it |
| `PlaybackQueue.Queue.RemoveUpcoming` | backend/src/audio/playback/queue.rs:236-245 | Removes one upcoming entry from both orders, or says that it is not upcoming |
| `PlaybackQueue.Queue.MoveUpcoming` | backend/src/audio/playback/queue.rs:253-282 | The entry is the one at its target among the upcoming entries, or the last of them; all others keep their order in both lists, nothing up to the current entry moves, and in the arranged order it is right behind the entry that plays before it |
| `PlaybackQueue.LandsAmongUpcoming` | backend/src/audio/playback/queue.rs:253-269 | Before and after a move the upcoming entries are the same but for the one moved, which is where it was to go |
| `PlaybackQueue.Queue.JumpTo` | backend/src/audio/playback/queue.rs:285-294 | Makes any other queued entry current, and changes no order |
| `PlaybackQueue.Queue.Enqueue` | backend/src/audio/playback/queue.rs:301-327 | One block of new entries in the order given: in the play order right behind the current entry or at the end, in the arranged order behind the same entry; the current entry stays; out of bounds exactly behind no current entry of a queue that is not empty |
| `PlaybackQueue.BlocksAdded` | backend/src/audio/playback/queue.rs:301-327 | Where the block stands in either order |
| `QueueWorker.EnqueueCommand` | backend/src/audio/playback/worker.rs:331-343 | The worker's command never gets there: with none current the tracks become a new queue and the first of them current |
| `QueueWorker.LastEntryGoes` | backend/src/audio/playback/worker/start.rs:355-372 | How entries without a current one come about: the last of the queue plays and is dropped |
| `QueueWorker.EnqueueBehindNothing` | backend/src/audio/playback/queue.rs:301-327 | From there the queue's own operation panics |
| `QueueWorker.ShuffleMakesCurrent` | backend/src/audio/playback/queue.rs:348-365 | From there turning shuffle on makes an entry current |
| `PlaybackQueue.Queue.SetShuffle` | backend/src/audio/playback/queue.rs:348-365 | The arranged order and the current entry stay; without a current entry the last one becomes current when it is turned on and the first when it is turned off |
| `PlaybackQueue.Queue.ShuffleAroundCurrent` | backend/src/audio/playback/queue.rs:435-448 | A permutation of the arranged order that begins with the current entry |
| `PlaybackQueue.Queue.Advance` | backend/src/audio/playback/queue.rs:368-398 | For each reason, position and repeat mode, the place it moves to or none, for every choice of the generator |
| `PlaybackQueue.Queue.WrapToStart` | backend/src/audio/playback/queue.rs:419-433 | Another pass: a shuffled queue of several entries is permuted anew and does not begin with the entry that just played |
| `PlaybackQueue.PlaysTheSame` | backend/src/audio/playback/queue.rs:63-73 | The play order is a permutation of the arranged one, with distinct ids |
| `PlaybackQueue.MovesAreValid` | backend/src/audio/playback/queue.rs:368-398 | Whatever the generator chooses, the queue invariant holds afterwards |
| `PlaybackQueue.EntryMoved` | backend/src/audio/playback/queue.rs:259-281 | A move lands behind its new predecessor in both orders |
| `PlaybackQueue.NewIdsAreNew` | backend/src/audio/playback/queue.rs:142-146 | New entries get ids that no queued entry has, and every id stays below the counter |
| `Entries.MovedOne` | backend/src/audio/playback/queue.rs:263-269 | Taking one entry out and putting it elsewhere moves only that one |
| `Entries.WithoutPermutes` | backend/src/audio/playback/queue.rs:221-230 | Dropping the same ids keeps two permutations permutations of each other |
| `QueuePasses.PeekedComesNext` | backend/src/audio/playback/queue.rs:402-415 | An entry that is peeked at is the one a natural finish moves to, for every generator |
| `QueuePasses.NothingPeeked` | backend/src/audio/playback/queue.rs:402-415 | None is peeked at exactly when there is nothing to move to, or before a shuffled queue wraps |
| `QueuePasses.DecidedBeforeAWrap` | backend/src/audio/playback/queue.rs:400-433 | Before a shuffled queue wraps the next entry is nevertheless decided, if and only if there is one entry, or two of which one is current |
| `QueuePasses.PassPlaysEachOnce` | backend/src/audio/playback/queue.rs:368-433 | From the first entry on, every pass of a repeating queue plays each entry exactly once, across any number of reshuffling wraps |
| `QueuePasses.PositionsCount` | backend/src/audio/playback/queue.rs:368-433 | The position counts through the queue, pass after pass |
| `QueuePasses.NoneTwiceInARow` | backend/src/audio/playback/queue.rs:417-433 | With more than one entry none plays twice in a row, across wraps as well |
| `QueuePasses.ShuffleOnAndOff` | backend/src/audio/playback/queue.rs:344-365 | Shuffling and unshuffling leaves a queue that has a current entry, or none at all, exactly as it was |
| `Chunking.Chunker.Push` | backend/src/audio/waveform.rs:95-115 | Chunks depend only on the samples taken in, not on the packets; it stops as soon as the limit is reached |
| `Chunking.Chunker.Finish` | backend/src/audio/waveform.rs:117-122 | The chunks are those of one pass over all samples |
| `Chunking.GatheredInOrder` | backend/src/audio/waveform.rs:95-122 | Statistics are gathered from every sample once and in order |
| `Chunking.AnalyzeRange` | backend/src/audio/waveform.rs:127-157 | The first chunks of one pass over what is decoded, however it is cut |
| `Chunking.SerialFrom` | backend/src/audio/waveform.rs:127-143 | The chunks decoded from a chunk boundary are the file's chunks from there |
| `Chunking.ChunkAt` | backend/src/audio/waveform.rs:95-122 | Each chunk is the statistics of its own samples, the last one of what is left; there are as many as the samples ask for |
| `Chunking.SegmentsAreShares` | backend/src/audio/waveform.rs:188-196 | As many segments as threads, unless one would be shorter than 256 chunks; then as many as are not |
| `Chunking.Stitch` | backend/src/audio/waveform.rs:213-226 | Segments put together are the whole, or refused: exactly when one fails or all but the last are not full |
| `Chunking.AnalyzeParallel` | backend/src/audio/waveform.rs:179-227 | For any number of threads and any length estimate: the chunks of one pass or no result; a result if and only if no segment fails and the file reaches the last segment |
| `Chunking.Analyze` | backend/src/audio/waveform.rs:162-177 | The same chunks with and without threads |
| `Waveform.Reduce` | backend/src/audio/waveform.rs:283-307 | One bucket a chunk, or a thousand if there are more chunks; every bucket is the merge of its chunks, and samples and energy are conserved in all |
| `Waveform.BucketsPartition` | backend/src/audio/waveform.rs:288-289 | Bucket ranges are not empty, meet, and cover all chunks, so the lower bound on a bucket's end is never needed |
| `Waveform.BucketsAreEven` | backend/src/audio/waveform.rs:288-289 | No bucket has more than one chunk more than another |
| `Waveform.ChunkIsInOneBucket` | backend/src/audio/waveform.rs:284-294 | Every chunk is in exactly one bucket |
| `Waveform.PeakIsReached` | backend/src/audio/waveform.rs:290-296 | A bucket's peak bounds its chunks' peaks and is one of them |
| `Waveform.RoundTrip` | backend/src/audio/waveform.rs:375-396 | A waveform is read back if and only if it has between 1 and 65535 buckets and as many of either kind |
| `Waveform.Layout` | backend/src/audio/waveform.rs:375-382 | The encoded form byte by byte: the mark, the count low byte first, the peaks, the means |
| `Waveform.DecodingIsExact` | backend/src/audio/waveform.rs:384-396 | Only a waveform's own encoding is read as it |
| `Waveform.ReduceToBytes` | backend/src/audio/waveform.rs:283-307 | The buckets of an analysis in bytes, as many of either kind; they are read back from the cache exactly if there was anything to analyze |
| `WaveformService.Service.Request` | backend/src/audio/waveform.rs:475-492 | The newest request waits, or joins an uncancelled job for its file; any other job in flight is cancelled |
| `WaveformService.Service.RequestAhead` | backend/src/audio/waveform.rs:496-517 | With nothing waiting, asks exactly if the stamp is known, the service is open, and the version is neither in memory nor being worked on; cancels and replaces nothing |
| `WaveformService.Service.NextJob` | backend/src/audio/waveform.rs:520-533 | Takes the waiting request, or ends once closed |
| `WaveformService.Service.FinishJob` | backend/src/audio/waveform.rs:560-567 | Whatever ends, the newest request still waits, runs, or ran to its end: in a job taken up after it, unless it joined one |
| `WaveformService.Service.Loaded` | backend/src/audio/waveform.rs:580-595 | Whatever the worker does in between, the loaded Playback's waveform is shown, or its file is the newest request |
| `WaveformService.Service.Show` | backend/src/audio/waveform.rs:580-589 | A waveform in memory of the version loaded is shown at once under the new Playback's id; another one's never stays |
| `WaveformService.Service.Publish` | backend/src/audio/waveform.rs:672-687 | Only a waveform of the loaded Playback's file becomes the topic, under that Playback's id and a new revision; its version is not asked for |
| `WaveformService.Service.PublishNext` | backend/src/audio/waveform.rs:632-668 | A job publishes under the stamp it read: an approximation at most once, then what is exact or cached, and nothing more |
| `WaveformService.OkKept` | backend/src/audio/waveform.rs:436-696 | Every step of service and worker keeps that the newest request waits, runs or was served, that what is shown and remembered was published of that file and version, and that a loaded Playback without a waveform is the one asked for |
| `WaveformService.Service.Remember` | backend/src/audio/waveform.rs:689-696 | At most sixteen are remembered, the newest among them; the others stay unless the memory is full, and then all go |
| `WaveformVersions.ServedByItsOwnJobExactly` | backend/src/audio/waveform.rs:475-533 | Over every way the worker may go on until it rests: a job is taken up for the newest request and ends for it, exactly if none for its file was running uncancelled when it was made |
| `WaveformVersions.NeverAnotherVersionExactly` | backend/src/audio/waveform.rs:411-417 | Over every way the worker may go on while the file stays as it is: no other version than the loaded one is ever shown, exactly if none is yet and no job in flight has read one it may still publish |
| `WaveformVersions.CanEndRightExactly` | backend/src/audio/waveform.rs:475-492 | The worker can come to rest with the loaded version shown, exactly if it is shown already, no uncancelled job for the file was joined, or the one joined may still publish that version |
| `WaveformVersions.OwnJobShowsTheLoaded` | backend/src/audio/waveform.rs:475-533 | A request that joined no job ends with the loaded version shown if the job taken up for it publishes at all, whatever a cancelled one still published before |
| `WaveformVersions.ReplacedBehindTheJob` | backend/src/audio/waveform.rs:475-492 | A file replaced and loaded again after its job published and before that ends is left with no waveform and no work |
| `WaveformVersions.FirstVersionShown` | backend/src/audio/waveform.rs:475-492 | Replaced and loaded again before its job publishes, it is left with the first version's waveform under the new Playback's id, and no work |
| `MeterHub.InvKept` | backend/src/audio/meter.rs:512-628 | Every step of taps, subscriptions and analysis threads keeps one thread at most, the flag and the ring where they belong |
| `MeterHub.OneSubscription` | backend/src/audio/meter.rs:530-628 | At any time at most one analysis thread runs, the flag is zero or names the live or starting session, and the newest stream's ring is either in the slot or with the running thread |
| `MeterHub.SpawnedIsWanted` | backend/src/audio/meter.rs:530-550 | A session begins with its thread running and wanted; without a thread the flag is cleared |
| `MeterHub.WantedThreadReads` | backend/src/audio/meter.rs:586-628 | After any run a thread that is wanted and looks at the slot finds the newest stream there or holds it, and goes on reading it: it does not park |
| `MeterHub.FlagIsTrue` | backend/src/audio/meter.rs:530-628 | After any run a flag that is set names the thread that runs, or the one that is just being started |
| `MeterHub.UnsubscribeIsExact` | backend/src/audio/meter.rs:552-582 | A stale id changes nothing, the live one ends its session |
| `MeterHub.TapIsNewest` | backend/src/audio/meter.rs:512-526 | A new stream's ring takes the slot, and nobody has it yet |
| `MeterHub.StopsTheOld` | backend/src/audio/meter.rs:530-582 | Subscribing, or ending every subscription, clears the live session's flag and joins its thread; without one, subscribing begins at once and ending changes nothing |
| `MeterHub.JoinedGoesOn` | backend/src/audio/meter.rs:530-582 | Behind the old thread a call starts its own session exactly if it subscribes; otherwise no session, thread or flag is left |
| `MeterHub.SubscriptionBegins` | backend/src/audio/meter.rs:534-550 | The next id goes to the flag, the session and the one thread |
| `MeterHub.UnheardThreadEnds` | backend/src/audio/meter.rs:586-628 | A thread whose receiver is gone parks its ring, clears the flag and ends |
| `MeterHub.JoinEnds` | backend/src/audio/meter.rs:568-628 | A call that joins the old thread is never stuck: it ends within five steps of its own |
| `MeterTap.Tap.Push` | backend/src/audio/meter.rs:644-665 | Copies the first two channels while somebody listens; the phase moves on by every sample, also of dropped pairs; a full ring drops whole pairs, so its occupancy stays even |
| `MeterTap.Tap.PushPair` | backend/src/audio/meter.rs:660-663 | A pair is stored whole or dropped whole |
| `MeterTap.WholeFramesArePaired` | backend/src/audio/meter.rs:648-659 | From the start of a frame, whole frames give the pairs of their first two channels; mono is doubled |
| `MeterTap.Play` | backend/src/audio/meter.rs:644-665 | Over a run of pushes the ring gains what is copied of the stream, pair by pair, as long as none is dropped |
| `MeterTap.CopiedIsPairsFrom` | backend/src/audio/meter.rs:648-659 | What is copied from any phase: the end of the pair that has begun, then neighbours one frame apart |
| `MeterTap.TapIsOffByWhatItMissed` | backend/src/audio/meter.rs:644-665 | After any pushes the channel the tap takes for the first is off by the samples that went by unheard; what is heard never changes it |
| `MeterTap.AlwaysRightExactly` | backend/src/audio/meter.rs:644-665 | What is copied is always the first two channels of frames, whatever is played and whenever listeners come and go, if and only if 512 is a multiple of the channel count |
| `MeterShift.CopiesOneShift` | backend/src/audio/meter.rs:644-665 | Over any pushes of any stream: while a tap only ever misses as many samples as take it to the same channel, every left sample it copies is of that channel and every right one of the next |
| `MeterShift.ListenLate` | backend/src/audio/meter.rs:644-665 | Through a tap: a listener one push late hears sample 512 and its neighbour of the segment and those one frame apart from them |
| `MeterShift.ListenLateAndOn` | backend/src/audio/meter.rs:644-665 | The same listener goes on hearing these two channels, as long as it misses whole frames; if it stays, exactly the samples a frame apart from the first ones |
| `FrameBatching.Batcher.Push` | backend/src/audio/meter.rs:415-428 | Two measurements make a frame of both; what is held back is silence after silence, so what is shown is always the newest frame |
| `FrameBatching.CombinedAt` | backend/src/audio/meter.rs:415-428 | The i-th frame combines the measurements 2i and 2i+1 |
| `Transport.Commands.Submit` | src/lib/playback/playback.svelte.ts:386-398 | A command runs, or waits in the place of the one that waited, which is rejected |
| `Transport.Commands.Settled` | src/lib/playback/playback.svelte.ts:400-417 | When the one in flight settles, either way, the waiting one runs |
| `Transport.Commands.LatestWins` | src/lib/playback/playback.svelte.ts:386-417 | Commands run in the order they were submitted, each at most once and none both run and rejected; at rest every one was either, and the last one ran |
| `Transport.Seeks.Seek` | src/lib/playback/playback.svelte.ts:278-283 | While a seek is in flight only the newest waits |
| `Transport.Seeks.Returned` | src/lib/playback/playback.svelte.ts:284-289 | A seek that returned lets the waiting one go |
| `Transport.Seeks.Rejected` | src/lib/playback/playback.svelte.ts:290-296 | A seek that failed takes the waiting one with it; the newest was sent exactly if none waited |
| `Transport.NewestIsSentExactly` | src/lib/playback/playback.svelte.ts:274-297 | Over any run seeks are sent in order and once; at rest the newest was the last one sent, except exactly if the last thing to happen was a failure while it waited |
| `Transport.SecondIsNeverSent` | src/lib/playback/playback.svelte.ts:274-297 | Two seeks, and the first fails: the second is never sent |

## Left out

- CatalogStore.Store.Refresh: the rows of the summary tables are ghost values, because SQL computes them from the
  groups of rows; how SQLite evaluates the queries is its contract.
- CatalogStore.Store.SettleCompilation: a track id orders a tie between covers as a number and an album id by its
  parts; the digests the ids are made of, and the folding of sort and search texts, are injective constructors and
  parameters.
- CatalogStore.Store.WriteOutcome: the scanner's reading of tags, its touch of unchanged files and the count of
  changes; file and directory moves.
- PcmQueue.NoLostWakeUp: atomics, channels and the ring are sequentially consistent, and one step moves a whole slice.
- Output.OutputStream.Fill: the gain, the conversion of samples and the meter's copy are one function of the sample;
  the stream clock is a real number with a last instant, so rounding to nanoseconds does not appear; counters do not
  saturate.
- Output.OutputStream.TakeHandoff: queues move by value between the slots, so freeing them on one thread or the other
  is not told apart.
- Output.OutputStream.DecodeThreadActs: the producer's ring has no bound here, which `PcmQueue` has; the decode thread
  of a queue acts while it plays, and a queue handed over carries what was pushed before.
- Resampling.Resampler.Process: the conversion core is known only by its chunks and its delay; an output frame is its
  place in what the core put out, so the filter, clamping and the error for samples that are not finite are left out.
- Decoding.Processor.Convert: downmixing weights; a mixed frame is named by its source frame.
- Seeking.DiscardLoop: damaged packets, other tracks and changed formats in the container.
- SeekPlayback.SeekAndPlay: opening the decoder, the queue and the thread, and their errors; how a demuxer turns a time
  into a tick and finds a packet, so its two timestamps and the frame its packets begin with are parameters.
- Messages.BatchMessages: values are read through a function, one answer per batch and topic; `Replication` reads
  them step by step.
- Replication.Converges: channel sends that fail while the page lives, and services that would change a value without
  announcing it.
- PlaybackQueue.Queue.Restore: item ids are unbounded, so the saturation of the counter does not appear.
- Chunking.AnalyzeParallel: cancellation, the quick sampled preview and errors of the single pass; statistics are any
  fold over samples in order, so floating-point sums are covered as they are.
- Waveform.ReduceToBytes: sums are exact; what a peak and what a mean square is as a byte are parameters.
- WaveformService.Service.Loaded: the cache files, hashes and the analysis itself; a published picture is a number, and
  counts as one of the version whose stamp its job read, although the file is read after that.
- MeterHub.OneSubscription: subscription ids do not wrap, and an analysis thread that panics.
- MeterTap.Tap.Push: filters, levels and decibels.
- MeterTap.Play: nothing is taken out of the ring between the pushes of one run.
- Transport.Commands.LatestWins: volume and mute, which coalesce as seeks do, and queue commands, which run as they
  come.
- The playback worker, its snapshots and persistence, tag reading, artwork, lyrics, scroll-index labels, the Svelte
  components and everything that only formats.
