/** Seeking: where decoding starts so that the resampler is warm at the target, what is thrown away, and why the
    first frame that plays is exactly the target. */
module Seeking {
  import opened Arithmetic
  import opened Decoding
  import opened Lists
  import opened Resampling
  import opened Timebase

  /** Source frames the resampler needs before its output counts. */
  function Warmup(rates: Rates, delay: nat): nat
    requires rates.Valid()
  {
    Saturated(CeilDiv(delay * rates.inRate, rates.outRate) + rates.inChunk * 4)
  }

  /** How far before the target decoding starts: past the warm-up, on a chunk. */
  function SeekPrerollFrames(rates: Rates, delay: nat, target: nat): (preroll: nat)
    requires rates.Valid()
    ensures preroll <= target && (target - preroll) % rates.inChunk == 0
    ensures preroll == target || Warmup(rates, delay) <= preroll < Warmup(rates, delay) + rates.inChunk
  {
    var initial := Beyond(target, Warmup(rates, delay));
    RoundedDown(initial, rates.inChunk);
    Beyond(target, RoundDown(initial, rates.inChunk))
  }

  /** The pre-roll covers the delay in source frames, rounded up, and four chunks, unless decoding starts at the
      beginning; and it is less than a chunk and a frame longer. */
  lemma PrerollCoversTheDelay(rates: Rates, delay: nat, target: nat)
    requires rates.Valid()
    ensures var preroll := SeekPrerollFrames(rates, delay, target);
            && (preroll == target || preroll >= U64_MAX
                || (preroll >= 4 * rates.inChunk
                    && (preroll - 4 * rates.inChunk) * rates.outRate >= delay * rates.inRate))
            && (preroll - 5 * rates.inChunk) * rates.outRate < delay * rates.inRate + rates.outRate
  {
    var preroll := SeekPrerollFrames(rates, delay, target);
    var ceiling := CeilDiv(delay * rates.inRate, rates.outRate);
    CeilIsLeast(delay * rates.inRate, rates.outRate);
    PrerollIsShort(rates, delay, target);
    var past := preroll - 5 * rates.inChunk;
    MultiplesGrow(past, ceiling - 1, rates.outRate);
    assert (ceiling - 1) * rates.outRate == ceiling * rates.outRate - rates.outRate;
    if preroll != target && preroll < U64_MAX {
      MultiplesGrow(ceiling, preroll - 4 * rates.inChunk, rates.outRate);
    }
  }

  lemma MultiplesGrow(a: int, b: int, unit: nat)
    requires a <= b
    ensures a * unit <= b * unit
  {
  }

  lemma PrerollIsShort(rates: Rates, delay: nat, target: nat)
    requires rates.Valid()
    ensures SeekPrerollFrames(rates, delay, target) < Warmup(rates, delay) + rates.inChunk
  {
    RoundedDown(Beyond(target, Warmup(rates, delay)), rates.inChunk);
  }

  /** Unless decoding starts at the beginning, the core has put out its delay and four chunks more behind it, by the
      first frame that is kept. */
  lemma SeekIsWarm(rates: Rates, delay: nat, target: nat)
    requires rates.Valid() && target <= U64_MAX && OpenSeek(rates, delay, target).start > 0
    ensures OpenSeek(rates, delay, target).discard >= delay + 4 * rates.outChunk
         || OpenSeek(rates, delay, target).discard == U64_MAX
  {
    var preroll := SeekPrerollFrames(rates, delay, target);
    PrerollCoversTheDelay(rates, delay, target);
    hide SeekPrerollFrames, Scaled;
    EnoughPreroll(rates, delay, preroll);
    ScaledAtLeast(preroll, rates.outRate, rates.inRate, delay + 4 * rates.outChunk);
  }

  lemma EnoughPreroll(rates: Rates, delay: nat, preroll: nat)
    requires rates.Valid() && preroll >= 4 * rates.inChunk
    requires (preroll - 4 * rates.inChunk) * rates.outRate >= delay * rates.inRate
    ensures preroll * rates.outRate >= (delay + 4 * rates.outChunk) * rates.inRate
  {
    ChunksMatch(rates, 4);
    SumTimes(preroll - 4 * rates.inChunk, 4 * rates.inChunk, rates.outRate);
    SumTimes(delay, 4 * rates.outChunk, rates.inRate);
  }

  lemma SumTimes(a: int, b: int, unit: int)
    ensures (a + b) * unit == a * unit + b * unit
  {
  }

  lemma ScaledAtLeast(value: nat, numerator: nat, denominator: nat, q: nat)
    requires denominator >= 1 && value * numerator >= q * denominator
    ensures Scaled(value, numerator, denominator) >= q
  {
    var scaled := Scaled(value, numerator, denominator);
    assert value * numerator < scaled * denominator + denominator;
    NotMoreUnits(q, scaled, denominator);
  }

  /** What `open_seek` decides: the source frame decoding starts at, the output frames to discard, and the output
      frame that plays first. */
  datatype Seek = Seek(start: nat, discard: nat, startOutput: nat)

  function OpenSeek(rates: Rates, delay: nat, target: nat): Seek
    requires rates.Valid()
  {
    var start := target - SeekPrerollFrames(rates, delay, target);
    Seek(start, RescaleFrame(target - start, rates.outRate, rates.inRate),
         RescaleFrame(target, rates.outRate, rates.inRate))
  }

  /** Decoding from source frame `start`, which is on a chunk, the k-th frame emitted is this one of the whole
      file's. */
  function InWholeFile(rates: Rates, start: nat, k: nat): nat { Scaled(start, rates.outRate, rates.inRate) + k }

  /** A seek lands exactly: the first frame kept is the one announced, and the end is where playing from the
      beginning would have ended. */
  lemma SeekLandsExactly(rates: Rates, delay: nat, target: nat, total: nat)
    requires rates.Valid()
    ensures var seek := OpenSeek(rates, delay, target);
            && seek.startOutput == Saturated(InWholeFile(rates, seek.start, seek.discard))
            && (seek.start <= total ==>
                  InWholeFile(rates, seek.start, Expected(rates, total - seek.start)) == Expected(rates, total))
  {
    var seek := OpenSeek(rates, delay, target);
    SaturatedOnce(Scaled(seek.start, rates.outRate, rates.inRate),
                  Scaled(target - seek.start, rates.outRate, rates.inRate));
    ScaledSplitsAtChunks(rates, seek.start, target);
    if seek.start <= total {
      ExpectedFromChunk(rates, seek.start, total);
    }
  }

  lemma SaturatedOnce(a: nat, b: nat)
    ensures Saturated(a + Saturated(b)) == Saturated(a + b)
  {
  }

  lemma ExpectedFromChunk(rates: Rates, start: nat, total: nat)
    requires rates.Valid() && start <= total && start % rates.inChunk == 0
    ensures Scaled(start, rates.outRate, rates.inRate) + Expected(rates, total - start) == Expected(rates, total)
  {
    var chunks := start / rates.inChunk;
    assert start == chunks * rates.inChunk;
    ChunksAddUp(rates, chunks, total - start);
  }

  /** The frames a seek to `target` queues, out of a file of `total`: the first is the output frame announced, they
      follow one another, and they end where the file does. */
  lemma SeekQueues(rates: Rates, delay: nat, target: nat, total: nat, j: nat)
    requires rates.Valid() && OpenSeek(rates, delay, target).start <= total && Expected(rates, total) <= U64_MAX
    ensures var seek := OpenSeek(rates, delay, target);
            var queue := Drop(Places(Emitted(delay, 0, Expected(rates, total - seek.start))), seek.discard);
            && |queue| == Beyond(Expected(rates, total), seek.startOutput)
            && (j < |queue| ==>
                  queue[j] == Resampled(delay + (seek.discard + j))
                  && InWholeFile(rates, seek.start, seek.discard + j) == seek.startOutput + j)
  {
    var seek := OpenSeek(rates, delay, target);
    SeekLandsExactly(rates, delay, target, total);
    ScaledSplitsAtChunks(rates, seek.start, target);
    ExpectedFromChunk(rates, seek.start, total);
    hide Scaled, Expected;
  }

  /** Without a resampler nothing is decoded early, and positions are source frames. */
  lemma SeekWithoutResampling(rate: nat, target: nat)
    requires rate >= 1 && target <= U64_MAX
    ensures RescaleFrame(target, rate, rate) == target && RescaleFrame(0, rate, rate) == 0
  {
    MultipleIs(target, rate);
  }

  // ---- Dropping whole frames by counting samples ----

  function SamplesIn(frames: nat, channels: nat): nat { frames * channels }

  /** The discarded samples of whole frames are those frames. */
  lemma {:induction false} WholeFramesDropped<T>(frames: seq<seq<T>>, channels: nat, count: nat)
    requires forall i :: 0 <= i < |frames| ==> |frames[i]| == channels
    ensures Drop(Flat(frames), SamplesIn(count, channels)) == Flat(Drop(frames, count))
    decreases |frames|
  {
    if count == 0 {
      assert Drop(frames, 0) == frames;
    } else if frames != [] {
      hide SamplesIn, Drop;
      WholeFramesDropped(frames[1..], channels, count - 1);
      OneFrameMore(count - 1, channels);
      DropJoins(frames[0], Flat(frames[1..]), SamplesIn(count, channels));
      NothingLeft(frames[0], SamplesIn(count, channels));
      DropJoins([frames[0]], frames[1..], count);
      NothingLeft([frames[0]], count);
      assert [frames[0]] + frames[1..] == frames;
    }
  }

  lemma OneFrameMore(frames: nat, channels: nat)
    ensures SamplesIn(frames + 1, channels) == SamplesIn(frames, channels) + channels
  {
  }

  lemma NothingLeft<T>(s: seq<T>, count: nat)
    requires |s| <= count
    ensures Drop(s, count) == []
  {
  }

  // ---- The decoder's own landing ----

  datatype Landing = Landed(first: seq<Sample>, rest: seq<seq<Sample>>) | EndOfStream | ReadFailed

  /** Decodes past the frames between where an accurate seek stopped and where it should: what is left starts
      exactly there, with a packet that is not empty, and there is nothing left only if the file ends before. */
  method DiscardLoop(packets: seq<seq<Sample>>, fails: bool, channels: nat, framesToDiscard: nat)
    returns (landing: Landing)
    requires channels >= 1 && AllAligned(packets, channels)
    ensures landing.Landed? ==>
      landing.first != [] && landing.first + Flat(landing.rest)
          == Drop(Flat(packets), SamplesIn(framesToDiscard, channels))
    ensures landing.Landed? ==> AllAligned([landing.first] + landing.rest, channels)
    ensures landing.Landed? <==> SamplesIn(framesToDiscard, channels) < |Flat(packets)|
    ensures !landing.Landed? ==> landing == if fails then ReadFailed else EndOfStream
  {
    hide SamplesIn, Drop, AllAligned;
    var remaining: nat, i := framesToDiscard, 0;
    while i < |packets|
      invariant i <= |packets|
      invariant Drop(Flat(packets), SamplesIn(framesToDiscard, channels))
        == Drop(Flat(packets[i..]), SamplesIn(remaining, channels))
      invariant SamplesIn(framesToDiscard, channels) < |Flat(packets)|
        <==> SamplesIn(remaining, channels) < |Flat(packets[i..])|
    {
      var packet := packets[i];
      PacketAligned(packets, i, channels);
      assert packets[i..][1..] == packets[i + 1..];
      DropJoins(packet, Flat(packets[i + 1..]), SamplesIn(remaining, channels));
      var packetFrames := |packet| / channels;
      FrameCount(|packet|, channels, remaining);
      if remaining >= packetFrames {
        NothingLeft(packet, SamplesIn(remaining, channels));
        remaining := remaining - packetFrames;
        i := i + 1;
      } else {
        SomethingLeft(packet, SamplesIn(remaining, channels), Flat(packets[i + 1..]));
        var first := Drop(packet, SamplesIn(remaining, channels));
        StillWhole(packet, remaining, channels);
        RestAligned(packets, i, first, channels);
        return Landed(first, packets[i + 1..]);
      }
    }
    landing := if fails then ReadFailed else EndOfStream;
  }

  ghost predicate AllAligned(packets: seq<seq<Sample>>, channels: nat)
    requires channels >= 1
  {
    forall p :: p in packets ==> |p| % channels == 0
  }

  lemma PacketAligned(packets: seq<seq<Sample>>, i: nat, channels: nat)
    requires channels >= 1 && AllAligned(packets, channels) && i < |packets|
    ensures |packets[i]| % channels == 0
  {
  }

  lemma RestAligned(packets: seq<seq<Sample>>, i: nat, first: seq<Sample>, channels: nat)
    requires channels >= 1 && AllAligned(packets, channels) && i < |packets| && |first| % channels == 0
    ensures AllAligned([first] + packets[i + 1..], channels)
  {
  }

  lemma StillWhole(packet: seq<Sample>, frames: nat, channels: nat)
    requires channels >= 1 && |packet| % channels == 0 && SamplesIn(frames, channels) <= |packet|
    ensures |Drop(packet, SamplesIn(frames, channels))| % channels == 0
  {
    MultipleIs(frames, channels);
    AlignedSum(|packet|, SamplesIn(frames, channels), channels);
  }

  lemma SomethingLeft<T>(s: seq<T>, count: nat, behind: seq<T>)
    requires count < |s|
    ensures Drop(s, count) != [] && Drop(behind, Beyond(count, |s|)) == behind
  {
  }

  lemma FrameCount(samples: nat, channels: nat, frames: nat)
    requires channels >= 1 && samples % channels == 0
    ensures frames >= samples / channels ==>
      SamplesIn(frames, channels) == samples + SamplesIn(frames - samples / channels, channels)
    ensures frames < samples / channels ==> SamplesIn(frames, channels) < samples
  {
    var n := samples / channels;
    assert n * channels == samples;
    assert frames * channels == n * channels + (frames - n) * channels;
    MulSign(frames - n, channels);
  }

  // ---- Timestamps ----

  datatype FrameCountResult = Count(frames: nat) | SeekFailed

  /** The frames between two timestamps of a time base, rounded up. */
  function TimestampDeltaToFrames(required: int, actual: int, numer: nat, denom: nat, sampleRate: nat): FrameCountResult
    requires denom >= 1
  {
    if required < actual then SeekFailed
    else
      var scaled := Product(required - actual, numer);
      var numerator := Product(scaled, sampleRate);
      if scaled > U128_MAX || numerator > U128_MAX || numerator + (denom - 1) > U128_MAX then SeekFailed
      else
        var frames := CeilDiv(numerator, denom);
        if frames <= U64_MAX then Count(frames) else SeekFailed
  }

  function Product(a: nat, b: nat): nat { a * b }

  /** It is the fewest frames that cover the time. It fails exactly for a seek that overshot and for numbers that do not
      fit: products in 128 bits, frames in 64. */
  lemma FramesCoverTheDelta(required: int, actual: int, numer: nat, denom: nat, sampleRate: nat)
    requires denom >= 1
    ensures var r := TimestampDeltaToFrames(required, actual, numer, denom, sampleRate);
            && (r.Count? ==>
                  && actual <= required
                  && var ticks := Product(Product(required - actual, numer), sampleRate);
                     ticks <= Product(r.frames, denom) < ticks + denom)
            && (r.Count? <==>
                && actual <= required && Product(required - actual, numer) <= U128_MAX
                && var ticks := Product(Product(required - actual, numer), sampleRate);
                   ticks + denom <= U128_MAX + 1 && ticks <= Product(U64_MAX, denom))
  {
    if actual <= required {
      var ticks := Product(Product(required - actual, numer), sampleRate);
      CeilIsLeast(ticks, denom);
      CeilWithin(ticks, denom, U64_MAX);
    }
  }

  lemma CeilWithin(a: nat, b: nat, most: nat)
    requires b >= 1
    ensures CeilDiv(a, b) <= most <==> a <= Product(most, b)
  {
    CeilIsLeast(a, b);
    var q := CeilDiv(a, b);
    if q <= most {
      MulSign(most - q, b);
      assert most * b == q * b + (most - q) * b;
    } else {
      MulSign(q - most - 1, b);
      assert q * b == most * b + b + (q - most - 1) * b;
    }
  }

  /** When the answer is the frames from `at` to `start`, if the packets from tick `actual` on begin with frame `at`:
      exactly when `start` is the first frame that is not before tick `required`. */
  lemma CountsToTheFrame(required: nat, actual: nat, numer: nat, denom: nat, sampleRate: nat, at: nat, start: nat)
    requires denom >= 1 && at <= start
    requires Product(Product(actual, numer), sampleRate) == Product(at, denom)
    requires TimestampDeltaToFrames(required, actual, numer, denom, sampleRate).Count?
    ensures TimestampDeltaToFrames(required, actual, numer, denom, sampleRate) == Count(start - at)
       <==> FirstFrameFrom(required, numer, denom, sampleRate) == start
  {
    var delta, whole := Product(Product(required - actual, numer), sampleRate),
        Product(Product(required, numer), sampleRate);
    DeltaIs(required, actual, numer, sampleRate);
    assert whole == at * denom + delta;
    WholePart(at, delta, denom);
  }

  /** The first frame that is not before a tick. */
  function FirstFrameFrom(tick: nat, numer: nat, denom: nat, sampleRate: nat): nat
    requires denom >= 1
  {
    CeilDiv(Product(Product(tick, numer), sampleRate), denom)
  }

  lemma DeltaIs(required: nat, actual: nat, numer: nat, sampleRate: nat)
    requires actual <= required
    ensures Product(Product(required, numer), sampleRate)
         == Product(Product(actual, numer), sampleRate) + Product(Product(required - actual, numer), sampleRate)
  {
    var a, b := Product(actual, numer), Product(required - actual, numer);
    assert Product(required, numer) == a + b;
    assert (a + b) * sampleRate == a * sampleRate + b * sampleRate;
  }

  const NANOS: nat := 1_000_000_000

  /** The time of a frame as the demuxer is asked for it: in whole nanoseconds, rounded down. */
  function TargetNanos(frame: nat, sampleRate: nat): nat
    requires sampleRate >= 1
  {
    Product(frame, NANOS) / sampleRate
  }

  /** The tick a time lies in, and the tick next to it, where a tick is a frame. */
  function TickDown(nanos: nat, sampleRate: nat): nat { Product(nanos, sampleRate) / NANOS }

  function TickNear(nanos: nat, sampleRate: nat): nat { (Product(nanos, sampleRate) + NANOS / 2) / NANOS }

  /** Where a tick is a frame, a demuxer that rounds to the nearest tick finds every frame again: at any rate up to
      half a gigahertz the nanoseconds lose less than half a frame. */
  lemma NearestTickIsTheFrame(frame: nat, sampleRate: nat)
    requires 1 <= sampleRate <= NANOS / 2
    ensures FirstFrameFrom(TickNear(TargetNanos(frame, sampleRate), sampleRate), 1, sampleRate, sampleRate) == frame
  {
    LostNanos(frame, sampleRate);
    var nanos := TargetNanos(frame, sampleRate);
    var part := Product(nanos, sampleRate) + NANOS / 2;
    QuotientIs(part, NANOS, frame, part - frame * NANOS);
    TickIsItsFrame(frame, sampleRate);
  }

  /** One that rounds down finds exactly the frames that lie on a whole nanosecond; every other seek would start one
      frame early. */
  lemma TickBelowIsTheFrameExactly(frame: nat, sampleRate: nat)
    requires 1 <= sampleRate <= NANOS
    ensures var found := FirstFrameFrom(TickDown(TargetNanos(frame, sampleRate), sampleRate), 1, sampleRate,
                                        sampleRate);
            && (found == frame <==> Product(frame, NANOS) % sampleRate == 0)
            && (found != frame ==> found == frame - 1)
  {
    LostNanos(frame, sampleRate);
    var part := Product(TargetNanos(frame, sampleRate), sampleRate);
    if Product(frame, NANOS) % sampleRate == 0 {
      QuotientIs(part, NANOS, frame, 0);
      TickIsItsFrame(frame, sampleRate);
    } else {
      assert (frame - 1) * NANOS == frame * NANOS - NANOS;
      QuotientIs(part, NANOS, frame - 1, part - (frame - 1) * NANOS);
      NoneBeforeZero(frame, sampleRate);
      TickIsItsFrame(frame - 1, sampleRate);
    }
  }

  lemma NoneBeforeZero(frame: nat, sampleRate: nat)
    requires sampleRate >= 1 && Product(frame, NANOS) % sampleRate != 0
    ensures frame >= 1
  {
    MultipleIs(0, sampleRate);
  }

  lemma LostNanos(frame: nat, sampleRate: nat)
    requires sampleRate >= 1
    ensures Product(TargetNanos(frame, sampleRate), sampleRate) == frame * NANOS - Product(frame, NANOS) % sampleRate
  {
    RoundedDown(frame * NANOS, sampleRate);
  }

  lemma TickIsItsFrame(tick: nat, sampleRate: nat)
    requires sampleRate >= 1
    ensures FirstFrameFrom(tick, 1, sampleRate, sampleRate) == tick
  {
    CeilIs(tick * sampleRate, sampleRate, tick);
  }
}
