/** A decode thread: it converts the packets of a source for the output, drops what a seek decoded too early,
    and feeds the queue. */
module Decoding {
  import opened Resampling
  import opened Timebase

  datatype Sample = Finite(value: int) | NotFinite
  type Frame = seq<Sample>

  /** A frame for the output: a source frame with its channels mixed, or one of the conversion core's. */
  datatype OutFrame = Mixed(frame: Frame) | Resampled(index: nat)

  datatype Conversion = Converted | MisalignedSamples | InvalidInputSamples | ResamplerProcessingFailed

  function Frames(samples: seq<Sample>, channels: nat): (frames: seq<Frame>)
    requires channels >= 1
  {
    if |samples| < channels then [] else [samples[..channels]] + Frames(samples[channels..], channels)
  }

  lemma FirstFrame(before: seq<Frame>, rest: seq<Sample>, channels: nat)
    requires channels >= 1 && |rest| >= channels
    ensures before + Frames(rest, channels) == (before + [rest[..channels]]) + Frames(rest[channels..], channels)
  {
  }

  lemma NoFrames(before: seq<Frame>, rest: seq<Sample>, channels: nat)
    requires channels > |rest|
    ensures before + Frames(rest, channels) == before
  {
  }

  function AllFrames(packets: seq<seq<Sample>>, channels: nat): seq<Frame>
    requires channels >= 1
  {
    if packets == [] then []
    else AllFrames(packets[..|packets| - 1], channels) + Frames(packets[|packets| - 1], channels)
  }

  function MixedAll(frames: seq<Frame>): seq<OutFrame> {
    seq(|frames|, i requires 0 <= i < |frames| => Mixed(frames[i]))
  }

  function Places(indices: seq<nat>): seq<OutFrame> {
    seq(|indices|, i requires 0 <= i < |indices| => Resampled(indices[i]))
  }

  /** Mixes the channels and, between different rates, resamples. */
  class Processor {
    const channels: nat
    const resampler: Resampler?
    var finished: bool
    /** The source frames converted so far. */
    ghost var taken: seq<Frame>

    ghost predicate Valid()
      reads this, resampler
    {
      && channels >= 1
      && (resampler != null ==> resampler.rates.Valid() && resampler.finished == finished)
      && (resampler != null && !finished ==> resampler.Valid() && resampler.totalSource == |taken|)
    }

    /** What was put out so far. */
    ghost function Made(): seq<OutFrame>
      reads this, resampler
    {
      if resampler == null then MixedAll(taken) else Places(Emitted(resampler.delay, 0, resampler.emitted))
    }

    /** What a source of these frames becomes, however it is cut into packets. */
    ghost function Whole(source: seq<Frame>): seq<OutFrame>
      requires resampler != null ==> resampler.rates.Valid()
    {
      if resampler == null then MixedAll(source)
      else Places(Emitted(resampler.delay, 0, Expected(resampler.rates, |source|)))
    }

    /** Between equal rates every frame of the source is mixed. Otherwise there are as many frames as the source is
        worth, rounded up, one after another behind the core's delay. */
    lemma WholeIs(source: seq<Frame>, i: nat)
      requires resampler != null ==> resampler.rates.Valid()
      ensures resampler == null ==>
        |Whole(source)| == |source| && (i < |source| ==> Whole(source)[i] == Mixed(source[i]))
      ensures resampler != null ==>
        && |Whole(source)| * resampler.rates.inRate >= |source| * resampler.rates.outRate
        && |Whole(source)| * resampler.rates.inRate < |source| * resampler.rates.outRate + resampler.rates.inRate
        && (i < |Whole(source)| ==> Whole(source)[i] == Resampled(resampler.delay + i))
    {
      if resampler != null {
        CeilIsLeast(|source| * resampler.rates.outRate, resampler.rates.inRate);
      }
    }

    ghost predicate FlushFailing(source: seq<Frame>)
      requires resampler != null ==> resampler.rates.Valid()
    {
      resampler != null && FlushFails(resampler.rates, resampler.delay, |source|)
    }

    constructor (channels: nat, resampler: Resampler?)
      requires channels >= 1
      requires resampler != null ==>
        resampler.Valid() && resampler.totalSource == resampler.emitted == 0 && !resampler.finished
      ensures Valid() && taken == [] && Made() == [] && !finished
      ensures this.channels == channels && this.resampler == resampler
    {
      this.channels, this.resampler := channels, resampler;
      finished, taken := false, [];
    }

    /** Converts one packet. */
    method Convert(input: seq<Sample>) returns (outcome: Conversion, output: seq<OutFrame>)
      requires Valid()
      modifies this, resampler
      ensures Valid() && finished == old(finished)
      ensures outcome ==
        if finished || |input| % channels != 0 then MisalignedSamples
        else if NotFinite in input then InvalidInputSamples else Converted
      ensures outcome == Converted ==> taken == old(taken) + Frames(input, channels) && Made() == old(Made()) + output
      ensures outcome != Converted ==> taken == old(taken) && Made() == old(Made()) && output == []
    {
      if finished || |input| % channels != 0 {
        return MisalignedSamples, [];
      }
      if NotFinite in input {
        return InvalidInputSamples, [];
      }
      outcome := Converted;
      output := ConvertFrames(input);
    }

    method ConvertFrames(input: seq<Sample>) returns (output: seq<OutFrame>)
      requires Valid() && !finished
      modifies this`taken, resampler
      ensures Valid() && taken == old(taken) + Frames(input, channels) && Made() == old(Made()) + output
    {
      hide Emitted, Expected, Places, MixedAll, Made, Frames;
      output := [];
      var rest := input;
      while |rest| >= channels
        invariant Valid() && !finished
        invariant taken + Frames(rest, channels) == old(taken) + Frames(input, channels)
        invariant Made() == old(Made()) + output
        decreases |rest|
      {
        ghost var before := taken;
        var more := ConvertFrame(rest[..channels]);
        FirstFrame(before, rest, channels);
        output := output + more;
        rest := rest[channels..];
      }
      NoFrames(taken, rest, channels);
    }

    method ConvertFrame(frame: Frame) returns (more: seq<OutFrame>)
      requires Valid() && !finished
      modifies this`taken, resampler
      ensures Valid() && taken == old(taken) + [frame] && Made() == old(Made()) + more
    {
      if resampler != null {
        ghost var before := resampler.emitted;
        var indices := resampler.Push();
        EmittedJoins(resampler.delay, 0, before, resampler.emitted);
        more := Places(indices);
      } else {
        more := [Mixed(frame)];
      }
      taken := taken + [frame];
    }

    /** Puts out what is left: in all, what the source becomes. */
    method Flush() returns (outcome: Conversion, output: seq<OutFrame>)
      requires Valid()
      modifies this, resampler
      ensures outcome == Converted ==> Valid() && finished
      ensures taken == old(taken) && old(Made()) <= Made()
      ensures old(finished) ==> outcome == Converted && output == [] && Made() == old(Made())
      ensures !old(finished) ==> outcome == if FlushFailing(taken) then ResamplerProcessingFailed else Converted
      ensures !old(finished) && outcome == Converted ==> Made() == Whole(taken) && Made() == old(Made()) + output
    {
      if finished {
        return Converted, [];
      }
      output := [];
      if resampler != null {
        ghost var before := resampler.emitted;
        var flushed, indices := resampler.Flush();
        if flushed != Done {
          return ResamplerProcessingFailed, [];
        }
        EmittedJoins(resampler.delay, 0, before, resampler.emitted);
        output := Places(indices);
      }
      outcome := Converted;
      finished := true;
    }
  }
}
