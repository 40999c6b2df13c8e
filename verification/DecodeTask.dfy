/** The decode thread's run, and what it queues after a seek. */
module DecodeTask {
  import opened Arithmetic
  import opened Decoding
  import opened Lists

  /** What the decoder still delivers: its packets, and whether it then fails. */
  datatype Source = Source(packets: seq<seq<Sample>>, fails: bool)

  datatype Stop = Finished | Cancelled | DecodeFailed | ConversionFailed

  function StopOf(outcome: Conversion): Stop {
    if outcome.ResamplerProcessingFailed? then ConversionFailed else DecodeFailed
  }

  lemma {:induction false} FramesJoin(packets: seq<seq<Sample>>, next: seq<Sample>, channels: nat)
    requires channels >= 1
    ensures AllFrames(packets + [next], channels) == AllFrames(packets, channels) + Frames(next, channels)
  {
    assert (packets + [next])[..|packets|] == packets;
  }

  lemma OnePacket(packet: seq<Sample>, channels: nat)
    requires channels >= 1
    ensures [] + Frames(packet, channels) == AllFrames([packet], channels)
  {
    assert [packet][..0] == [];
  }

  lemma DropPrefix<T>(part: seq<T>, all: seq<T>, count: nat)
    requires part <= all
    ensures Drop(part, count) <= Drop(all, count)
  {
  }

  /** The queue was seen to hold the prebuffer. */
  ghost predicate Enough(seen: seq<nat>, prebufferFrames: nat) {
    exists i :: 0 <= i < |seen| && seen[i] >= prebufferFrames
  }

  lemma EnoughMore(seen: seq<nat>, queued: nat, prebufferFrames: nat)
    ensures Enough(seen + [queued], prebufferFrames) <==> Enough(seen, prebufferFrames) || queued >= prebufferFrames
  {
    if Enough(seen, prebufferFrames) {
      var i :| 0 <= i < |seen| && seen[i] >= prebufferFrames;
      assert (seen + [queued])[i] == seen[i];
    } else if queued >= prebufferFrames {
      assert (seen + [queued])[|seen|] == queued;
    }
  }

  lemma EnoughInAll(first: seq<nat>, all: seq<nat>, prebufferFrames: nat)
    requires first <= all
    ensures Enough(all, prebufferFrames) <==> Enough(first, prebufferFrames) || Enough(all[|first|..], prebufferFrames)
  {
    if Enough(all, prebufferFrames) {
      var i :| 0 <= i < |all| && all[i] >= prebufferFrames;
      if i < |first| {
        assert first[i] == all[i];
      } else {
        assert all[|first|..][i - |first|] == all[i];
      }
    }
    if Enough(first, prebufferFrames) {
      var i :| 0 <= i < |first| && first[i] >= prebufferFrames;
      assert all[i] == first[i];
    }
    if Enough(all[|first|..], prebufferFrames) {
      var i :| 0 <= i < |all[|first|..]| && all[|first|..][i] >= prebufferFrames;
      assert all[|first| + i] == all[|first|..][i];
    }
  }

  class Task {
    const converter: Processor
    var discard: nat
    /** What was pushed to the queue, and whether its end was declared. */
    var queue: seq<OutFrame>
    var declared: bool
    const prebufferFrames: nat
    var prebufferSent: bool
    /** How often the worker was told the prebuffer is ready. */
    var notices: nat
    /** How full the queue was found, push by push. */
    ghost var seen: seq<nat>
    /** What the task was told to discard. */
    ghost const toDiscard: nat

    ghost predicate Valid()
      reads this, converter, converter.resampler
    {
      && converter.Valid() && !converter.finished && !declared
      && discard == Beyond(toDiscard, |converter.Made()|)
      && queue == Drop(converter.Made(), toDiscard)
      && notices == (if prebufferSent then 1 else 0) && (prebufferSent <==> Enough(seen, prebufferFrames))
    }

    constructor (converter: Processor, discard: nat, prebufferFrames: nat)
      requires converter.Valid() && !converter.finished && converter.taken == [] && converter.Made() == []
      ensures Valid() && this.converter == converter && toDiscard == discard && queue == [] && notices == 0
      ensures this.prebufferFrames == prebufferFrames && seen == []
    {
      this.converter, this.discard, toDiscard := converter, discard, discard;
      this.prebufferFrames := prebufferFrames;
      queue, declared, prebufferSent, notices, seen := [], false, false, 0, [];
    }

    /** Tells the worker that the prebuffer is ready, the first time it is. */
    method NotifyPrebuffer(ready: bool)
      modifies this`prebufferSent, this`notices
      ensures prebufferSent == (old(prebufferSent) || ready)
      ensures notices == old(notices) + if ready && !old(prebufferSent) then 1 else 0
    {
      if ready && !prebufferSent {
        prebufferSent := true;
        notices := notices + 1;
      }
    }

    /** Drops from the front what is still to be discarded. */
    method DiscardPrefix(samples: seq<OutFrame>) returns (kept: seq<OutFrame>)
      modifies this`discard
      ensures kept == Drop(samples, old(discard)) && discard == Beyond(old(discard), |samples|)
    {
      var discarded := if |samples| <= discard then |samples| else discard;
      if discarded == 0 {
        return samples;
      }
      kept := samples[discarded..];
      discard := discard - discarded;
    }

    /** Queues what was converted. A cancelled wait for room leaves a part of it unqueued. */
    method WriteConverted(converted: seq<OutFrame>) returns (cancelled: bool)
      modifies this`discard, this`queue, this`prebufferSent, this`notices, this`seen
      ensures old(seen) <= seen && (old(queue) != queue ==> old(seen) != seen)
      ensures prebufferSent <==> old(prebufferSent) || Enough(seen[|old(seen)|..], prebufferFrames)
      ensures discard == Beyond(old(discard), |converted|)
      ensures !cancelled ==> queue == old(queue) + Drop(converted, old(discard))
      ensures old(queue) <= queue <= old(queue) + Drop(converted, old(discard))
      ensures notices - old(notices) == (if prebufferSent then 1 else 0) - (if old(prebufferSent) then 1 else 0)
      ensures old(prebufferSent) ==> prebufferSent
    {
      var kept := DiscardPrefix(converted);
      var offset := 0;
      while offset < |kept|
        invariant offset <= |kept| && queue == old(queue) + kept[..offset]
        invariant notices - old(notices) == (if prebufferSent then 1 else 0) - (if old(prebufferSent) then 1 else 0)
        invariant old(prebufferSent) ==> prebufferSent
        invariant old(seen) <= seen && (old(seen) == seen ==> offset == 0)
        invariant prebufferSent <==> old(prebufferSent) || Enough(seen[|old(seen)|..], prebufferFrames)
        modifies this`queue, this`prebufferSent, this`notices, this`seen
      {
        if * {
          return true;
        }
        var pushed: nat :| 0 < pushed <= |kept| - offset;
        queue := queue + kept[offset..offset + pushed];
        offset := offset + pushed;
        var queued: nat := *;
        EnoughMore(seen[|old(seen)|..], queued, prebufferFrames);
        seen := seen + [queued];
        assert seen[|old(seen)|..] == seen[|old(seen)|..|seen| - 1] + [queued];
        NotifyPrebuffer(queued >= prebufferFrames);
      }
      cancelled := false;
    }

    /** Converts a packet and queues it. */
    method ProcessPacket(packet: seq<Sample>) returns (stop: Stop)
      requires Valid()
      modifies this, converter, converter.resampler
      ensures stop == Finished ==>
        Valid() && converter.taken == old(converter.taken) + Frames(packet, converter.channels)
      ensures converter.Valid() && queue <= Drop(converter.Made(), toDiscard) && declared == old(declared)
      ensures notices == (if prebufferSent then 1 else 0) && (prebufferSent <==> Enough(seen, prebufferFrames))
      ensures stop == Cancelled || (stop == Finished <==> |packet| % converter.channels == 0 && NotFinite !in packet)
      ensures stop == Cancelled || stop == Finished || stop == DecodeFailed
    {
      ghost var before, known := converter.Made(), seen;
      var outcome, converted := converter.Convert(packet);
      if outcome != Converted {
        return StopOf(outcome);
      }
      DropJoins(before, converted, toDiscard);
      var cancelled := WriteConverted(converted);
      EnoughInAll(known, seen, prebufferFrames);
      stop := if cancelled then Cancelled else Finished;
    }

    /** Converts everything to the end of the source. Only then, with all of it queued, is the end
        declared; whatever happens, the queue holds a prefix of the converted source behind the
        discarded frames, and the worker hears of the prebuffer once at most. */
    method Run(first: seq<Sample>, source: Source) returns (stop: Stop)
      requires Valid() && converter.taken == [] && converter.channels >= 1
      modifies this, converter, converter.resampler
      ensures declared <==> stop == Finished
      ensures stop == Finished ==>
        && !source.fails && notices == 1
        && var all := AllFrames([first] + source.packets, converter.channels);
           queue == Drop(converter.Whole(all), toDiscard) && !converter.FlushFailing(all)
      ensures queue <= Drop(converter.Made(), toDiscard) && notices <= 1
      ensures notices == 1 <==> stop == Finished || Enough(seen, prebufferFrames)
    {
      hide AllFrames, Frames, Drop, Valid, Processor.Valid, Processor.Made, Processor.Whole, Processor.FlushFailing,
          Enough;
      QueueSoFar();
      stop := ProcessPacket(first);
      if stop != Finished {
        return;
      }
      OnePacket(first, converter.channels);
      stop := ProcessRest([first], source.packets);
      if stop != Finished {
        return;
      }
      if source.fails {
        QueueSoFar();
        return DecodeFailed;
      }
      stop := Finish();
    }

    lemma QueueSoFar()
      requires Valid()
      ensures !declared && queue <= Drop(converter.Made(), toDiscard) && notices <= 1
      ensures notices == 1 <==> Enough(seen, prebufferFrames)
    {
    }

    /** Converts the packets after those `done`, until cancelled or one fails. */
    method ProcessRest(ghost done: seq<seq<Sample>>, packets: seq<seq<Sample>>) returns (stop: Stop)
      requires Valid() && converter.channels >= 1 && converter.taken == AllFrames(done, converter.channels)
      modifies this, converter, converter.resampler
      ensures stop == Finished ==> Valid() && converter.taken == AllFrames(done + packets, converter.channels)
      ensures !declared && queue <= Drop(converter.Made(), toDiscard) && notices <= 1
      ensures notices == 1 <==> Enough(seen, prebufferFrames)
    {
      hide AllFrames, Frames, Drop, Valid, Processor.Valid, Processor.Made, Enough;
      var i := 0;
      QueueSoFar();
      assert done + packets[..0] == done;
      while i < |packets|
        invariant i <= |packets| && Valid()
        invariant converter.taken == AllFrames(done + packets[..i], converter.channels)
        invariant !declared && queue <= Drop(converter.Made(), toDiscard) && notices <= 1
        invariant notices == 1 <==> Enough(seen, prebufferFrames)
      {
        if * {
          return Cancelled;
        }
        FramesJoin(done + packets[..i], packets[i], converter.channels);
        assert done + packets[..i + 1] == done + packets[..i] + [packets[i]];
        stop := ProcessPacket(packets[i]);
        if stop != Finished {
          return;
        }
        i := i + 1;
      }
      assert packets[..i] == packets;
      stop := Finished;
    }

    /** Flushes the converter, queues the rest and declares the end. */
    method Finish() returns (stop: Stop)
      requires Valid()
      modifies this, converter, converter.resampler
      ensures declared <==> stop == Finished
      ensures converter.taken == old(converter.taken)
      ensures stop == Finished || stop == Cancelled
        || (stop == ConversionFailed && converter.FlushFailing(converter.taken))
      ensures stop == Finished ==>
        && notices == 1 && !converter.FlushFailing(converter.taken)
        && queue == Drop(converter.Whole(converter.taken), toDiscard)
      ensures queue <= Drop(converter.Made(), toDiscard) && notices <= 1
      ensures notices == 1 <==> stop == Finished || Enough(seen, prebufferFrames)
    {
      ghost var before, known := converter.Made(), seen;
      var outcome, converted := converter.Flush();
      DropPrefix(before, converter.Made(), toDiscard);
      if outcome != Converted {
        return StopOf(outcome);
      }
      DropJoins(before, converted, toDiscard);
      var cancelled := WriteConverted(converted);
      EnoughInAll(known, seen, prebufferFrames);
      if cancelled {
        return Cancelled;
      }
      NotifyPrebuffer(true);
      declared := true;
      stop := Finished;
    }
  }
}
