/** A seek from its request to the queue: the decoder lands, the decode thread converts from there, and the first
    frame it queues is the one announced. */
module SeekPlayback {
  import opened Arithmetic
  import opened DecodeTask
  import opened Decoding
  import opened Lists
  import opened Options
  import opened Resampling
  import opened Seeking
  import opened Timebase

  lemma {:induction false} FramesCounted(samples: seq<Sample>, channels: nat)
    requires channels >= 1 && |samples| % channels == 0
    ensures SamplesIn(|Frames(samples, channels)|, channels) == |samples|
    decreases |samples|
  {
    if |samples| >= channels {
      MultipleIs(1, channels);
      AlignedSum(|samples|, channels, channels);
      FramesCounted(samples[channels..], channels);
      OneFrameMore(|Frames(samples[channels..], channels)|, channels);
    } else {
      RoundedDown(|samples|, channels);
    }
  }

  lemma SamplesAdd(a: nat, b: nat, channels: nat)
    ensures SamplesIn(a + b, channels) == SamplesIn(a, channels) + SamplesIn(b, channels)
  {
  }

  /** Packets of whole frames hold as many frames as their samples make. */
  lemma {:induction false} AllFramesCounted(packets: seq<seq<Sample>>, channels: nat)
    requires channels >= 1 && AllAligned(packets, channels)
    ensures SamplesIn(|AllFrames(packets, channels)|, channels) == |Flat(packets)|
    decreases |packets|
  {
    if packets != [] {
      var rest, last := packets[..|packets| - 1], packets[|packets| - 1];
      assert packets == rest + [last];
      AllFramesCounted(rest, channels);
      FramesCounted(last, channels);
      FlatMore(rest, last);
      FramesJoin(rest, last, channels);
      SamplesAdd(|AllFrames(rest, channels)|, |Frames(last, channels)|, channels);
    }
  }

  lemma SameCount(a: nat, b: nat, channels: nat)
    requires channels >= 1 && SamplesIn(a, channels) == SamplesIn(b, channels)
    ensures a == b
  {
    NotMoreUnits(a, b, channels);
    NotMoreUnits(b, a, channels);
  }

  /** What the decoder delivers once it has dropped `count` frames: the rest of the file. */
  lemma LandedBehind(packets: seq<seq<Sample>>, landing: Landing, channels: nat, at: nat, count: nat, total: nat)
    requires channels >= 1 && at <= total && landing.Landed?
    requires |Flat(packets)| == SamplesIn(total - at, channels)
    requires SamplesIn(count, channels) < |Flat(packets)|
    requires landing.first + Flat(landing.rest) == Drop(Flat(packets), SamplesIn(count, channels))
    requires AllAligned([landing.first] + landing.rest, channels)
    ensures at + count <= total
    ensures |AllFrames([landing.first] + landing.rest, channels)| == total - (at + count)
  {
    var all := [landing.first] + landing.rest;
    assert all[1..] == landing.rest;
    AllFramesCounted(all, channels);
    NotMoreUnits(count, total - at, channels);
    SamplesAdd(count, total - at - count, channels);
    SameCount(|AllFrames(all, channels)|, total - (at + count), channels);
  }

  lemma LandsExactly(channels: nat, at: nat, start: nat, total: nat)
    requires channels >= 1 && at <= start && at <= total
    ensures SamplesIn(start - at, channels) < SamplesIn(total - at, channels) <==> start < total
  {
    if start < total {
      SamplesAdd(start - at, total - start, channels);
      MulSign(total - start, channels);
    } else {
      MoreUnits(total - at, start - at, channels);
    }
  }

  /** Where the demuxer says it should be and where it stopped, in ticks of the track's time base. */
  datatype Seeked = Seeked(required: int, actual: int)

  /** Refused, over before a frame was decoded, or the decode task's end. */
  datatype SeekEnd = Refused | NotLanded(landing: Landing) | Ran(stop: Stop)

  /** Seeks to source frame `target` of a file of `total` and decodes to the end. The demuxer's `packets` begin with
      frame `at`; how many of their frames are dropped follows from its two timestamps. If nothing stops it, the queue
      holds what comes of the file from there on. If those are the frames to the start that was chosen, it begins with
      the announced output frame and ends where the whole file's does, every frame in its place. */
  method SeekAndPlay(rates: Rates, delay: nat, channels: nat, target: nat, numer: nat, denom: nat,
                     seeked: Option<Seeked>,
                     total: nat, at: nat, packets: seq<seq<Sample>>, fails: bool, prebufferFrames: nat)
    returns (startOutput: nat, end: SeekEnd, queue: seq<OutFrame>)
    requires rates.Valid() && channels >= 1 && denom >= 1 && Expected(rates, total) <= U64_MAX
    requires at <= total && AllAligned(packets, channels) && |Flat(packets)| == SamplesIn(total - at, channels)
    ensures startOutput == RescaleFrame(target, rates.outRate, rates.inRate)
    ensures end == Refused <==> seeked.None? || ToDrop(seeked.value, numer, denom, rates) == SeekFailed
    ensures end == Ran(Finished) ==>
      && !fails && seeked.Some?
      && var landedOn := at + ToDrop(seeked.value, numer, denom, rates).frames;
         && landedOn <= total
         && queue == Drop(Places(Emitted(delay, 0, Expected(rates, total - landedOn))),
                          OpenSeek(rates, delay, target).discard)
    ensures LandsOn(seeked, numer, denom, rates, at, OpenSeek(rates, delay, target).start) ==>
      && (end.NotLanded? <==> total <= OpenSeek(rates, delay, target).start)
      && (end == Ran(Finished) ==>
            && |queue| == Beyond(Expected(rates, total), startOutput)
            && forall j :: 0 <= j < |queue| ==>
                 && queue[j].Resampled? && queue[j].index >= delay
                 && InWholeFile(rates, OpenSeek(rates, delay, target).start, queue[j].index - delay) == startOutput + j)
  {
    hide OpenSeek, Scaled, Expected, SamplesIn, AllFrames, Flat, Drop, Places, Emitted, TimestampDeltaToFrames,
        AllAligned;
    var seek := OpenSeek(rates, delay, target);
    SeekStartsBefore(rates, delay, target);
    startOutput, queue := seek.startOutput, [];
    if seeked.None? {
      return startOutput, Refused, [];
    }
    var toDrop := ToDrop(seeked.value, numer, denom, rates);
    if toDrop == SeekFailed {
      return startOutput, Refused, [];
    }
    var landing := DiscardLoop(packets, fails, channels, toDrop.frames);
    if LandsOn(seeked, numer, denom, rates, at, seek.start) {
      LandsExactly(channels, at, seek.start, total);
    }
    if !landing.Landed? {
      return startOutput, NotLanded(landing), [];
    }
    LandedBehind(packets, landing, channels, at, toDrop.frames, total);
    var stop;
    stop, queue := DecodeAll(rates, delay, channels, landing, fails, seek.discard, prebufferFrames);
    end := Ran(stop);
    if stop == Finished && LandsOn(seeked, numer, denom, rates, at, seek.start) {
      forall j | 0 <= j < |queue|
        ensures queue[j].Resampled? && queue[j].index >= delay
        ensures InWholeFile(rates, seek.start, queue[j].index - delay) == startOutput + j
      {
        SeekQueues(rates, delay, target, total, j);
      }
      SeekQueues(rates, delay, target, total, 0);
    }
  }

  /** The frames the decoder drops after the demuxer's seek. */
  function ToDrop(seeked: Seeked, numer: nat, denom: nat, rates: Rates): FrameCountResult
    requires denom >= 1
  {
    TimestampDeltaToFrames(seeked.required, seeked.actual, numer, denom, rates.inRate)
  }

  /** The demuxer stopped at frame `at`, not behind `start`, and the frames between the two are dropped. */
  ghost predicate LandsOn(seeked: Option<Seeked>, numer: nat, denom: nat, rates: Rates, at: nat, start: nat)
    requires denom >= 1
  {
    seeked.Some? && at <= start && ToDrop(seeked.value, numer, denom, rates) == Count(start - at)
  }

  /** The decode task of a seek, from the landing on. */
  method DecodeAll(rates: Rates, delay: nat, channels: nat, landing: Landing, fails: bool, discard: nat,
                   prebufferFrames: nat)
    returns (stop: Stop, queue: seq<OutFrame>)
    requires rates.Valid() && channels >= 1 && landing.Landed?
    ensures stop == Finished ==>
      && !fails
      && var frames := AllFrames([landing.first] + landing.rest, channels);
         queue == Drop(Places(Emitted(delay, 0, Expected(rates, |frames|))), discard)
  {
    hide Scaled, Expected, AllFrames, Drop, Places, Emitted;
    var resampler := new Resampler(rates, delay);
    var converter := new Processor(channels, resampler);
    var task := new Task(converter, discard, prebufferFrames);
    stop := task.Run(landing.first, Source(landing.rest, fails));
    queue := task.queue;
  }

  /** A seek lands on its frame when the packets from the timestamp reached begin with the frame there, and the start
      chosen is the first frame that is not before the timestamp required; otherwise it does not. */
  lemma SeekLandsOnItsFrame(seeked: Seeked, numer: nat, denom: nat, rates: Rates, at: nat, start: nat)
    requires denom >= 1 && 0 <= seeked.actual <= seeked.required && at <= start
    requires Product(Product(seeked.actual, numer), rates.inRate) == Product(at, denom)
    requires ToDrop(seeked, numer, denom, rates).Count?
    ensures LandsOn(Some(seeked), numer, denom, rates, at, start)
       <==> FirstFrameFrom(seeked.required, numer, denom, rates.inRate) == start
  {
    CountsToTheFrame(seeked.required, seeked.actual, numer, denom, rates.inRate, at, start);
  }

  lemma SeekStartsBefore(rates: Rates, delay: nat, target: nat)
    requires rates.Valid()
    ensures OpenSeek(rates, delay, target).start <= target
    ensures OpenSeek(rates, delay, target).startOutput == RescaleFrame(target, rates.outRate, rates.inRate)
  {
  }
}
