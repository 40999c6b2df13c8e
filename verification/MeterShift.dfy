/** A meter's tap that is off: which samples it copies from then on, and for how long. */
module MeterShift {
  import opened Arithmetic
  import opened MeterTap

  // ---- Which channel a copied sample is of ----

  ghost predicate InChannel(channels: nat, stream: seq<Sample>, sample: Sample, channel: nat)
    requires channels >= 1
  {
    exists at :: 0 <= at < |stream| && at % channels == channel && stream[at] == sample
  }

  /** Every left sample is of channel `shift`, and every right one of the channel behind it. */
  ghost predicate AllOff(channels: nat, stream: seq<Sample>, copied: seq<Sample>, shift: nat)
    requires channels >= 1
  {
    forall i :: 0 <= i < |copied| ==> InChannel(channels, stream, copied[i], (shift + i % 2) % channels)
  }

  lemma AllOffJoin(channels: nat, stream: seq<Sample>, a: seq<Sample>, b: seq<Sample>, shift: nat)
    requires channels >= 1 && |a| % 2 == 0 && AllOff(channels, stream, a, shift) && AllOff(channels, stream, b, shift)
    ensures AllOff(channels, stream, a + b, shift)
  {
    forall i | 0 <= i < |a + b| ensures InChannel(channels, stream, (a + b)[i], (shift + i % 2) % channels) {
      if i >= |a| {
        assert (a + b)[i] == b[i - |a|] && i % 2 == (i - |a|) % 2;
      }
    }
  }

  /** What a tap copies of a push, when it has missed as many samples as take it to channel `shift`. */
  lemma {:induction false} CopiedOff(channels: nat, phase: nat, left: Sample, stream: seq<Sample>, at: nat, end: nat,
                                     shift: nat)
    requires channels >= 2 && phase < channels && shift < channels && at <= end <= |stream|
    requires (at - phase) % channels == shift
    requires phase == 1 ==> InChannel(channels, stream, left, shift)
    ensures var copied := Copied(channels, phase, left, stream[at..end]);
            |copied| % 2 == 0 && AllOff(channels, stream, copied, shift)
    ensures PhaseAfter(channels, phase, end - at) == 1 ==>
              InChannel(channels, stream, LeftAfter(channels, phase, left, stream[at..end]), shift)
    decreases end - at
  {
    var samples := stream[at..end];
    if at < end {
      assert samples[0] == stream[at] && samples[1..] == stream[at + 1..end];
      NextPhaseIs(channels, phase);
      CopiedFirst(channels, phase, left, samples);
      ChannelAt(channels, phase, at, shift);
      var next := if phase == 0 then stream[at] else left;
      CopiedOff(channels, NextPhase(channels, phase), next, stream, at + 1, end, shift);
      hide Copied, PairAt;
      QuotientIs(shift, channels, 0, shift);
      AllOffJoin(channels, stream, if phase == 1 then [left, stream[at]] else [],
                 Copied(channels, NextPhase(channels, phase), next, stream[at + 1..end]), shift);
    }
  }

  lemma ChannelAt(channels: nat, phase: nat, at: nat, shift: nat)
    requires channels >= 2 && phase < channels && shift < channels && (at - phase) % channels == shift
    ensures (at + 1 - (if phase + 1 < channels then phase + 1 else 0)) % channels == shift
    ensures phase == 0 ==> at % channels == shift
    ensures phase == 1 ==> at % channels == (shift + 1) % channels
  {
    SameRemainder(at - phase, 1, channels);
    RemainderOfSum(at - phase, phase, channels);
  }

  // ---- Whole runs ----

  /** Whenever somebody listens, the samples missed so far take the tap to channel `shift`. */
  predicate HeardAt(channels: nat, chunks: seq<Chunk>, missed: nat, shift: nat)
    requires channels >= 1
    decreases |chunks|
  {
    chunks == []
    || ((chunks[0].active ==> missed % channels == shift)
        && HeardAt(channels, chunks[1..], if chunks[0].active then missed else missed + chunks[0].count, shift))
  }

  /** Whatever is played: a tap that only ever misses whole frames more than `missed` copies one channel and its
      neighbour. */
  lemma {:induction false} CopiesOneShift(channels: nat, phase: nat, left: Sample, stream: seq<Sample>, at: nat,
                                          chunks: seq<Chunk>, missed: nat, shift: nat)
    requires channels >= 2 && phase < channels && shift < channels && at <= |stream| && Total(chunks) == |stream| - at
    requires (at - phase - missed) % channels == 0 && HeardAt(channels, chunks, missed, shift)
    requires phase == 1 ==> InChannel(channels, stream, left, shift)
    ensures AllOff(channels, stream, CopiedThrough(channels, phase, left, stream[at..], chunks), shift)
    decreases |chunks|
  {
    if chunks != [] {
      var n := chunks[0].count;
      FirstChunk(channels, phase, left, stream[at..], chunks);
      assert stream[at..][n..] == stream[at + n..] && stream[at..][..n] == stream[at..at + n];
      hide CopiedThrough, Copied, AllOff, InChannel, Total, PhaseAfter, LeftAfter;
      if chunks[0].active {
        MissedIs(channels, at - phase, missed, shift);
        CopiedOff(channels, phase, left, stream, at, at + n, shift);
        PhaseCounts(channels, phase, n);
        var samples := stream[at..at + n];
        var next, nextLeft := PhaseAfter(channels, phase, n), LeftAfter(channels, phase, left, samples);
        StillMissed(channels, phase, at, n, missed);
        CopiesOneShift(channels, next, nextLeft, stream, at + n, chunks[1..], missed, shift);
        AllOffJoin(channels, stream, Copied(channels, phase, left, samples),
                   CopiedThrough(channels, next, nextLeft, stream[at + n..], chunks[1..]), shift);
      } else {
        CopiesOneShift(channels, phase, left, stream, at + n, chunks[1..], missed + n, shift);
      }
    }
  }

  lemma MissedIs(channels: nat, position: int, missed: nat, shift: nat)
    requires channels >= 1 && (position - missed) % channels == 0 && missed % channels == shift
    ensures position % channels == shift
  {
    RemainderOfSum(position - missed, missed, channels);
  }

  lemma StillMissed(channels: nat, phase: nat, at: nat, n: nat, missed: nat)
    requires channels >= 1 && (at - phase - missed) % channels == 0
    ensures (at + n - (phase + n) % channels - missed) % channels == 0
  {
    var turns := (phase + n) / channels;
    assert at + n - (phase + n) % channels - missed == at - phase - missed + turns * channels;
    SameRemainder(at - phase - missed, turns, channels);
  }

  // ---- A listener that came late ----

  /** The samples from the 512th on and their neighbours, a frame's length apart. */
  ghost predicate IsChannel512(channels: nat, stream: seq<Sample>, heard: seq<Sample>) {
    heard != []
    && forall i :: 0 <= i && 2 * i < |heard| ==>
         && FILL_CHUNK_SAMPLES + i * channels + 1 < |stream| && 2 * i + 1 < |heard|
         && heard[2 * i] == stream[FILL_CHUNK_SAMPLES + i * channels]
         && heard[2 * i + 1] == stream[FILL_CHUNK_SAMPLES + i * channels + 1]
  }

  /** A listener one push late, through a tap. */
  method ListenLate(channels: nat, capacity: nat, stream: seq<Sample>) returns (tap: Tap)
    requires channels >= 3 && capacity % 2 == 0 && 2 * |stream| <= capacity && |stream| == channels * FILL_CHUNK_SAMPLES
    ensures fresh(tap) && tap.Valid() && tap.channels == channels && tap.capacity == capacity && tap.dropped == 0
    ensures tap.phase == PhaseThrough(channels, 0, LateListener(channels))
    ensures Total(LateListener(channels)) == |stream|
         && tap.left == LeftThrough(channels, 0, 0, stream, LateListener(channels))
         && tap.ring == CopiedThrough(channels, 0, 0, stream, LateListener(channels))
    ensures IsChannel512(channels, stream, tap.ring) && |tap.ring| <= |stream|
  {
    hide CopiedThrough, PairsFrom, PhaseThrough, LeftThrough, Total, LateListener, IsChannel512;
    tap := new Tap(channels, capacity);
    LateListenerHears(channels, 0, stream);
    PairsFit(channels, stream, FILL_CHUNK_SAMPLES);
    HeardIs(channels, stream);
    Play(tap, stream, LateListener(channels));
  }

  /** What it hears of the segment is channel 512 and its neighbour. Whatever it hears later, missing whole frames in
      between, is of these two channels as well; and if it stays, it is the same samples of the frames that follow. */
  method ListenLateAndOn(channels: nat, capacity: nat, stream: seq<Sample>, later: seq<Sample>, more: seq<Chunk>)
    returns (tap: Tap, heard: seq<Sample>)
    requires channels >= 2 && FILL_CHUNK_SAMPLES % channels != 0
    requires capacity % 2 == 0 && 2 * |stream| <= capacity && |stream| == channels * FILL_CHUNK_SAMPLES
    requires Total(more) == |later|
    ensures tap.Valid() && tap.channels == channels && IsChannel512(channels, stream, heard)
    ensures tap.dropped == 0 ==> heard <= tap.ring
    ensures tap.dropped == 0 && HeardAt(channels, more, 0, 0) ==>
      AllOff(channels, stream + later, tap.ring, FILL_CHUNK_SAMPLES % channels)
    ensures tap.dropped == 0 && (forall c :: c in more ==> c.active) ==>
      tap.ring == PairsFrom(channels, stream + later, FILL_CHUNK_SAMPLES)
    ensures 2 * (|stream| + |later|) <= capacity ==> tap.dropped == 0
    ensures Missed(more) % channels == 0 ==>
      NextLeft(channels, tap.phase, |stream| + |later|) % channels == FILL_CHUNK_SAMPLES % channels != 0
  {
    hide *;
    NotTwo(channels);
    tap := ListenLate(channels, capacity, stream);
    heard := tap.ring;
    HeardOn(channels, 0, stream, later, more);
    CopiedFits(channels, tap.phase, tap.left, later, more);
    Play(tap, later, more);
    StaysShifted(channels, more);
  }

  lemma NotTwo(channels: nat)
    requires channels >= 2 && FILL_CHUNK_SAMPLES % channels != 0
    ensures channels >= 3
  {
  }

  lemma HeardIs(channels: nat, stream: seq<Sample>)
    requires channels >= 3 && |stream| == channels * FILL_CHUNK_SAMPLES
    ensures IsChannel512(channels, stream, PairsFrom(channels, stream, FILL_CHUNK_SAMPLES))
  {
    var heard := PairsFrom(channels, stream, FILL_CHUNK_SAMPLES);
    assert heard != [];
    hide PairsFrom;
    forall i | 0 <= i && 2 * i < |heard|
      ensures FILL_CHUNK_SAMPLES + i * channels + 1 < |stream| && 2 * i + 1 < |heard|
      ensures heard[2 * i] == stream[FILL_CHUNK_SAMPLES + i * channels]
      ensures heard[2 * i + 1] == stream[FILL_CHUNK_SAMPLES + i * channels + 1]
    {
      PairIs(channels, stream, FILL_CHUNK_SAMPLES, i);
    }
  }

  /** The segment and what is played later, as one run. */
  lemma HeardOn(channels: nat, left: Sample, stream: seq<Sample>, later: seq<Sample>, more: seq<Chunk>)
    requires channels >= 3 && FILL_CHUNK_SAMPLES % channels != 0 && |stream| == channels * FILL_CHUNK_SAMPLES
    requires Total(more) == |later| && Total(LateListener(channels)) == |stream|
    ensures var late := LateListener(channels);
            var copied := CopiedThrough(channels, 0, left, stream, late)
                          + CopiedThrough(channels, PhaseThrough(channels, 0, late),
                                          LeftThrough(channels, 0, left, stream, late), later, more);
            && (HeardAt(channels, more, 0, 0)
                ==> AllOff(channels, stream + later, copied, FILL_CHUNK_SAMPLES % channels))
            && ((forall c :: c in more ==> c.active)
                ==> copied == PairsFrom(channels, stream + later, FILL_CHUNK_SAMPLES))
  {
    var late := LateListener(channels);
    CopiedThroughBoth(channels, 0, left, stream, late, later, more);
    var all, run := stream + later, late + more;
    assert all[0..] == all;
    MultipleIs(0, channels);
    hide CopiedThrough, PhaseThrough, LeftThrough, PairsFrom, AllOff, Total;
    if HeardAt(channels, more, 0, 0) {
      LateHeardAt(channels, more);
      CopiesOneShift(channels, 0, left, all, 0, run, 0, FILL_CHUNK_SAMPLES % channels);
    }
    if forall c :: c in more ==> c.active {
      AllHeardOn(channels, left, all, run);
    }
  }

  /** Everything but the first push is heard. */
  lemma AllHeardOn(channels: nat, left: Sample, stream: seq<Sample>, chunks: seq<Chunk>)
    requires channels >= 2 && Total(chunks) == |stream| && chunks != [] && chunks[0] == Chunk(FILL_CHUNK_SAMPLES, false)
    requires forall c :: c in chunks[1..] ==> c.active
    ensures CopiedThrough(channels, 0, left, stream, chunks) == PairsFrom(channels, stream, FILL_CHUNK_SAMPLES)
  {
    FirstChunk(channels, 0, left, stream, chunks);
    HeardThroughout(channels, 0, left, stream[FILL_CHUNK_SAMPLES..], chunks[1..]);
    CopiedIsPairsFrom(channels, 0, left, stream, FILL_CHUNK_SAMPLES);
  }

  lemma LateHeardAt(channels: nat, more: seq<Chunk>)
    requires channels >= 2 && HeardAt(channels, more, 0, 0)
    ensures HeardAt(channels, LateListener(channels) + more, 0, FILL_CHUNK_SAMPLES % channels)
  {
    var run := LateListener(channels) + more;
    var heard := seq(channels - 1, _ => Chunk(FILL_CHUNK_SAMPLES, true));
    assert run[0] == Chunk(FILL_CHUNK_SAMPLES, false) && run[1..] == heard + more;
    assert FILL_CHUNK_SAMPLES % channels == (0 + FILL_CHUNK_SAMPLES) % channels;
    HeardFurther(channels, more, 0, FILL_CHUNK_SAMPLES);
    HeardBefore(channels, heard, more, FILL_CHUNK_SAMPLES, FILL_CHUNK_SAMPLES % channels);
  }

  /** Having missed `further` samples before shifts every channel by that. */
  lemma {:induction false} HeardFurther(channels: nat, chunks: seq<Chunk>, missed: nat, further: nat)
    requires channels >= 1 && HeardAt(channels, chunks, missed, 0)
    ensures HeardAt(channels, chunks, missed + further, further % channels)
    decreases |chunks|
  {
    if chunks != [] {
      RemainderOfSum(missed, further, channels);
      HeardFurther(channels, chunks[1..], if chunks[0].active then missed else missed + chunks[0].count, further);
    }
  }

  lemma {:induction false} HeardBefore(channels: nat, heard: seq<Chunk>, more: seq<Chunk>, missed: nat, shift: nat)
    requires channels >= 1 && (forall c :: c in heard ==> c.active) && missed % channels == shift
    requires HeardAt(channels, more, missed, shift)
    ensures HeardAt(channels, heard + more, missed, shift)
    decreases |heard|
  {
    if heard == [] {
      assert heard + more == more;
    } else {
      assert heard[0] in heard && (heard + more)[0] == heard[0] && (heard + more)[1..] == heard[1..] + more;
      HeardBefore(channels, heard[1..], more, missed, shift);
    }
  }

  lemma {:induction false} CopiedThroughBoth(channels: nat, phase: nat, left: Sample, stream: seq<Sample>,
                                             a: seq<Chunk>,
                                             later: seq<Sample>, b: seq<Chunk>)
    requires channels >= 1 && Total(a) == |stream| && Total(b) == |later|
    ensures Total(a + b) == |stream + later|
    ensures CopiedThrough(channels, phase, left, stream + later, a + b)
         == CopiedThrough(channels, phase, left, stream, a)
            + CopiedThrough(channels, PhaseThrough(channels, phase, a), LeftThrough(channels, phase, left, stream, a),
                            later, b)
    decreases |a|
  {
    hide CopiedThrough, PhaseThrough, LeftThrough;
    ThroughBoth(channels, phase, a, b);
    if a == [] {
      assert a + b == b && stream + later == later;
      NoChunks(channels, phase, left, stream, a);
    } else {
      var n := a[0].count;
      FirstChunk(channels, phase, left, stream, a);
      FirstChunk(channels, phase, left, stream + later, a + b);
      assert (a + b)[0] == a[0] && (a + b)[1..] == a[1..] + b;
      assert (stream + later)[..n] == stream[..n] && (stream + later)[n..] == stream[n..] + later;
      if a[0].active {
        CopiedThroughBoth(channels, PhaseAfter(channels, phase, n), LeftAfter(channels, phase, left, stream[..n]),
                          stream[n..], a[1..], later, b);
      } else {
        CopiedThroughBoth(channels, phase, left, stream[n..], a[1..], later, b);
      }
    }
  }

  lemma {:induction false} CopiedFits(channels: nat, phase: nat, left: Sample, stream: seq<Sample>, chunks: seq<Chunk>)
    requires channels >= 2 && Total(chunks) == |stream|
    ensures |CopiedThrough(channels, phase, left, stream, chunks)| <= 2 * |stream|
    decreases |chunks|
  {
    if chunks == [] {
      NoChunks(channels, phase, left, stream, chunks);
    } else {
      var n := chunks[0].count;
      FirstChunk(channels, phase, left, stream, chunks);
      hide CopiedThrough, Copied;
      if chunks[0].active {
        PushFits(channels, phase, left, stream[..n]);
        CopiedFits(channels, PhaseAfter(channels, phase, n), LeftAfter(channels, phase, left, stream[..n]), stream[n..],
                   chunks[1..]);
      } else {
        CopiedFits(channels, phase, left, stream[n..], chunks[1..]);
      }
    }
  }

  lemma {:induction false} PushFits(channels: nat, phase: nat, left: Sample, samples: seq<Sample>)
    requires channels >= 2
    ensures |Copied(channels, phase, left, samples)| <= 2 * |samples|
    decreases |samples|
  {
    if samples != [] {
      CopiedFirst(channels, phase, left, samples);
      hide Copied, PairAt;
      PushFits(channels, NextPhase(channels, phase), if phase == 0 then samples[0] else left, samples[1..]);
    }
  }

  lemma StaysShifted(channels: nat, more: seq<Chunk>)
    requires channels >= 2
    ensures var late := LateListener(channels);
            var phase := PhaseThrough(channels, PhaseThrough(channels, 0, late), more);
            && phase < channels
            && (Missed(more) % channels == 0 ==>
                  NextLeft(channels, phase, Total(late) + Total(more)) % channels == FILL_CHUNK_SAMPLES % channels)
  {
    var late := LateListener(channels);
    LateListenerHears(channels, 0, seq(channels * FILL_CHUNK_SAMPLES, _ => 0));
    ThroughBoth(channels, 0, late, more);
    TapIsOffByWhatItMissed(channels, late + more);
    hide PhaseThrough, Total, Missed, LateListener;
    RemainderOfSum(Missed(more), Missed(late), channels);
  }

  lemma {:induction false} PairsFit(channels: nat, stream: seq<Sample>, at: nat)
    requires channels >= 2
    ensures |PairsFrom(channels, stream, at)| <= if at < |stream| then |stream| - at + 1 else 0
    decreases |stream| - at
  {
    if at + 1 < |stream| {
      PairsFit(channels, stream, at + channels);
    }
  }

  lemma {:induction false} ThroughBoth(channels: nat, phase: nat, a: seq<Chunk>, b: seq<Chunk>)
    requires channels >= 1
    ensures PhaseThrough(channels, phase, a + b) == PhaseThrough(channels, PhaseThrough(channels, phase, a), b)
    ensures Total(a + b) == Total(a) + Total(b) && Missed(a + b) == Missed(a) + Missed(b)
    decreases |a|
  {
    if a == [] {
      assert a + b == b;
    } else {
      assert (a + b)[0] == a[0] && (a + b)[1..] == a[1..] + b;
      ThroughBoth(channels, if a[0].active then PhaseAfter(channels, phase, a[0].count) else phase, a[1..], b);
    }
  }

  lemma {:induction false} PairIs(channels: nat, stream: seq<Sample>, at: nat, i: nat)
    requires channels >= 2 && 2 * i < |PairsFrom(channels, stream, at)|
    ensures |PairsFrom(channels, stream, at)| % 2 == 0 && at + i * channels + 1 < |stream|
    ensures PairsFrom(channels, stream, at)[2 * i] == stream[at + i * channels]
    ensures PairsFrom(channels, stream, at)[2 * i + 1] == stream[at + i * channels + 1]
    decreases i
  {
    PairsAreEven(channels, stream, at);
    if i > 0 {
      assert i * channels == (i - 1) * channels + channels;
      PairIs(channels, stream, at + channels, i - 1);
    }
  }

  lemma {:induction false} PairsAreEven(channels: nat, stream: seq<Sample>, at: nat)
    requires channels >= 2
    ensures |PairsFrom(channels, stream, at)| % 2 == 0
    decreases |stream| - at
  {
    if at + 1 < |stream| {
      PairsAreEven(channels, stream, at + channels);
    }
  }
}
