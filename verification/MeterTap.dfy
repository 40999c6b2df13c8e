/** The writing end of the meter's ring, which the output callback holds: it copies the first two channels of what it
    plays, in pairs, while somebody listens. */
module MeterTap {
  import opened Arithmetic
  import opened Lists

  type Sample = int

  /** Samples moved per push by the output callback. */
  const FILL_CHUNK_SAMPLES: nat := 512

  /** The pair a sample completes at `phase` of a frame. */
  function PairAt(channels: nat, phase: nat, left: Sample, sample: Sample): seq<Sample> {
    if channels == 1 then [sample, sample] else if phase == 1 then [left, sample] else []
  }

  function NextPhase(channels: nat, phase: nat): nat
    requires channels >= 1
  {
    (phase + 1) % channels
  }

  /** What is copied of `samples` from `phase` on, when the last left sample was `left`. */
  function Copied(channels: nat, phase: nat, left: Sample, samples: seq<Sample>): seq<Sample>
    requires channels >= 1
    decreases |samples|
  {
    if samples == [] then []
    else
      PairAt(channels, phase, left, samples[0])
      + Copied(channels, NextPhase(channels, phase), if phase == 0 then samples[0] else left, samples[1..])
  }

  /** The first two channels of whole frames; mono doubled. */
  function Pairs(channels: nat, samples: seq<Sample>): seq<Sample>
    requires channels >= 1 && |samples| % channels == 0
    decreases |samples|
  {
    if samples == [] then []
    else
      AtLeastOne(|samples|, channels);
      AlignedSum(|samples|, channels, channels);
      [samples[0], if channels == 1 then samples[0] else samples[1]] + Pairs(channels, samples[channels..])
  }

  lemma AtLeastOne(count: nat, unit: nat)
    requires unit >= 1 && count % unit == 0 && count > 0
    ensures count >= unit && unit % unit == 0
  {
    RoundedDown(count, unit);
    MultipleIs(1, unit);
  }

  lemma {:induction false} CopiedJoins(channels: nat, phase: nat, left: Sample, a: seq<Sample>, b: seq<Sample>)
    requires channels >= 1
    ensures Copied(channels, phase, left, a + b)
         == Copied(channels, phase, left, a)
            + Copied(channels, PhaseAfter(channels, phase, |a|), LeftAfter(channels, phase, left, a), b)
    decreases |a|
  {
    if a == [] {
      assert a + b == b;
    } else {
      assert (a + b)[0] == a[0] && (a + b)[1..] == a[1..] + b;
      CopiedJoins(channels, NextPhase(channels, phase), if phase == 0 then a[0] else left, a[1..], b);
    }
  }

  function PhaseAfter(channels: nat, phase: nat, count: nat): nat
    requires channels >= 1
    decreases count
  {
    if count == 0 then phase else PhaseAfter(channels, NextPhase(channels, phase), count - 1)
  }

  function LeftAfter(channels: nat, phase: nat, left: Sample, samples: seq<Sample>): Sample
    requires channels >= 1
    decreases |samples|
  {
    if samples == [] then left
    else LeftAfter(channels, NextPhase(channels, phase), if phase == 0 then samples[0] else left, samples[1..])
  }

  lemma {:induction false} PhaseCounts(channels: nat, phase: nat, count: nat)
    requires channels >= 1 && phase < channels
    ensures PhaseAfter(channels, phase, count) == (phase + count) % channels
    decreases count
  {
    if count == 0 {
      QuotientIs(phase, channels, 0, phase);
    } else if phase + 1 < channels {
      QuotientIs(phase + 1, channels, 0, phase + 1);
      PhaseCounts(channels, phase + 1, count - 1);
    } else {
      QuotientIs(phase + 1, channels, 1, 0);
      PhaseCounts(channels, 0, count - 1);
      WrapOnce(count - 1, channels);
    }
  }

  lemma WrapOnce(count: nat, unit: nat)
    requires unit >= 1
    ensures (unit + count) % unit == count % unit
  {
    QuotientIs(unit + count, unit, count / unit + 1, count % unit);
  }

  /** From any phase but the first, the channels of a frame that are left give nothing behind the second. */
  lemma {:induction false} RestOfFrame(channels: nat, phase: nat, left: Sample, rest: seq<Sample>)
    requires channels >= 3 && 2 <= phase < channels && |rest| == channels - phase
    ensures Copied(channels, phase, left, rest) == [] && PhaseAfter(channels, phase, |rest|) == 0
    decreases |rest|
  {
    if phase + 1 < channels {
      QuotientIs(phase + 1, channels, 0, phase + 1);
      RestOfFrame(channels, phase + 1, left, rest[1..]);
    } else {
      QuotientIs(phase + 1, channels, 1, 0);
      assert rest[1..] == [];
    }
  }

  lemma OneFrame(channels: nat, left: Sample, frame: seq<Sample>)
    requires channels >= 1 && |frame| == channels
    ensures Copied(channels, 0, left, frame) == [frame[0], if channels == 1 then frame[0] else frame[1]]
    ensures PhaseAfter(channels, 0, channels) == 0
  {
    PhaseCounts(channels, 0, channels);
    MultipleIs(1, channels);
    if channels == 1 {
      assert frame[1..] == [];
    } else {
      QuotientIs(1, channels, 0, 1);
      assert frame[1..][0] == frame[1] && frame[1..][1..] == frame[2..];
      assert Copied(channels, 0, left, frame) == Copied(channels, 1, frame[0], frame[1..]);
      assert Copied(channels, 1, frame[0], frame[1..])
          == [frame[0], frame[1]] + Copied(channels, NextPhase(channels, 1), frame[0], frame[2..]);
      if channels == 2 {
        assert frame[2..] == [];
      } else {
        QuotientIs(2, channels, 0, 2);
        RestOfFrame(channels, 2, frame[0], frame[2..]);
      }
    }
  }

  /** From the start of a frame, whole frames are copied as the pairs of their first two channels. */
  lemma {:induction false} WholeFramesArePaired(channels: nat, left: Sample, samples: seq<Sample>)
    requires channels >= 1 && |samples| % channels == 0
    ensures Copied(channels, 0, left, samples) == Pairs(channels, samples)
    decreases |samples|
  {
    if samples != [] {
      AtLeastOne(|samples|, channels);
      AlignedSum(|samples|, channels, channels);
      var frame, rest := samples[..channels], samples[channels..];
      assert samples == frame + rest;
      CopiedJoins(channels, 0, left, frame, rest);
      OneFrame(channels, left, frame);
      WholeFramesArePaired(channels, LeftAfter(channels, 0, left, frame), rest);
    }
  }

  class Tap {
    const channels: nat
    /** The ring, and how much it holds. */
    const capacity: nat
    var ring: seq<Sample>
    var phase: nat
    var left: Sample
    var dropped: nat

    ghost predicate Valid()
      reads this
    {
      && channels >= 1 && phase < channels
      && capacity % 2 == 0 && |ring| <= capacity && |ring| % 2 == 0
    }

    constructor (channelCount: nat, capacity: nat)
      requires capacity % 2 == 0
      ensures Valid() && phase == 0 && left == 0 && ring == [] && dropped == 0 && this.capacity == capacity
      ensures channels == if channelCount < 1 then 1 else channelCount
    {
      channels, this.capacity := if channelCount < 1 then 1 else channelCount, capacity;
      ring, phase, left, dropped := [], 0, 0, 0;
    }

    /** Copies `samples` while somebody listens. A full ring drops pairs, never half of one: left and right
        cannot trade places in it. */
    method Push(samples: seq<Sample>, active: bool)
      requires Valid()
      modifies this
      ensures Valid() && old(dropped) <= dropped
      ensures old(dropped) < dropped ==> |ring| == capacity
      ensures !active ==> ring == old(ring) && phase == old(phase) && left == old(left) && dropped == old(dropped)
      ensures active ==> phase == PhaseAfter(channels, old(phase), |samples|) == (old(phase) + |samples|) % channels
      ensures |old(ring)| <= |ring|
      ensures active ==> left == LeftAfter(channels, old(phase), old(left), samples)
      ensures active ==>
        |ring| + 2 * dropped == |old(ring)| + 2 * old(dropped) + |Copied(channels, old(phase), old(left), samples)|
      ensures active && dropped == old(dropped) ==> ring == old(ring) + Copied(channels, old(phase), old(left), samples)
    {
      if !active {
        return;
      }
      PhaseCounts(channels, phase, |samples|);
      var i := 0;
      while i < |samples|
        invariant i <= |samples| && Valid() && old(dropped) <= dropped
        invariant old(dropped) < dropped ==> |ring| == capacity
        invariant |old(ring)| <= |ring|
        invariant PhaseAfter(channels, phase, |samples| - i) == PhaseAfter(channels, old(phase), |samples|)
        invariant LeftAfter(channels, phase, left, samples[i..]) == LeftAfter(channels, old(phase), old(left), samples)
        invariant |ring| + 2 * dropped + |Copied(channels, phase, left, samples[i..])|
               == |old(ring)| + 2 * old(dropped) + |Copied(channels, old(phase), old(left), samples)|
        invariant dropped == old(dropped) ==>
          ring + Copied(channels, phase, left, samples[i..])
              == old(ring) + Copied(channels, old(phase), old(left), samples)
      {
        assert samples[i..][1..] == samples[i + 1..];
        var pair := PairAt(channels, phase, left, samples[i]);
        var kept := if phase == 0 then samples[i] else left;
        Regrouped(ring, pair, Copied(channels, NextPhase(channels, phase), kept, samples[i + 1..]));
        left := kept;
        phase := NextPhase(channels, phase);
        PushPair(pair);
        i := i + 1;
      }
    }

    /** The ring takes what fits of a pair; it counts as dropped unless all of it did. */
    method PushPair(pair: seq<Sample>)
      requires Valid() && (|pair| == 0 || |pair| == 2)
      modifies this`ring, this`dropped
      ensures Valid()
      ensures (ring == old(ring) + pair && dropped == old(dropped))
           || (ring == old(ring) && |ring| == capacity && |pair| == 2 && dropped == old(dropped) + 1)
    {
      if pair == [] {
        return;
      }
      var vacant := capacity - |ring|;
      var pushed := if |pair| <= vacant then |pair| else vacant;
      ring := ring + pair[..pushed];
      if pushed < |pair| {
        dropped := dropped + 1;
      }
      assert pair[..2] == pair;
    }

    /** The analysis thread takes up to a buffer of an even length. */
    method Pop(room: nat) returns (samples: seq<Sample>)
      requires Valid() && room % 2 == 0
      modifies this`ring
      ensures Valid() && samples + ring == old(ring) && |samples| % 2 == 0
      ensures |samples| == room || ring == []
    {
      var count := if room < |ring| then room else |ring|;
      samples := ring[..count];
      ring := ring[count..];
    }
  }

  // ---- Listeners that come and go ----

  /** A push of `count` samples, seen by a listener or not. */
  datatype Chunk = Chunk(count: nat, active: bool)

  /** How a segment is cut into pushes. */
  ghost predicate CutOf(count: nat, chunks: seq<Chunk>)
    decreases count
  {
    if count == 0 then chunks == []
    else if count <= FILL_CHUNK_SAMPLES then |chunks| == 1 && chunks[0].count == count
    else |chunks| > 0 && chunks[0].count == FILL_CHUNK_SAMPLES && CutOf(count - FILL_CHUNK_SAMPLES, chunks[1..])
  }

  /** The pushes of segments of whole frames, in a row. */
  ghost predicate Played(channels: nat, chunks: seq<Chunk>)
    requires channels >= 1
    decreases |chunks|
  {
    chunks == []
    || exists n :: 0 < n <= |chunks| && WholeSegment(channels, chunks[..n]) && Played(channels, chunks[n..])
  }

  ghost predicate WholeSegment(channels: nat, chunks: seq<Chunk>)
    requires channels >= 1
  {
    exists count: nat :: count % channels == 0 && CutOf(count, chunks)
  }

  /** The samples that went by, and those that went by while nobody listened. */
  function Total(chunks: seq<Chunk>): nat {
    if chunks == [] then 0 else chunks[0].count + Total(chunks[1..])
  }

  function Missed(chunks: seq<Chunk>): nat {
    if chunks == [] then 0 else (if chunks[0].active then 0 else chunks[0].count) + Missed(chunks[1..])
  }

  /** The phase a tap is in after pushes. */
  function PhaseThrough(channels: nat, phase: nat, chunks: seq<Chunk>): nat
    requires channels >= 1
    decreases |chunks|
  {
    if chunks == [] then phase
    else
      var next := if chunks[0].active then PhaseAfter(channels, phase, chunks[0].count) else phase;
      PhaseThrough(channels, next, chunks[1..])
  }

  /** The left sample a tap then holds. */
  function LeftThrough(channels: nat, phase: nat, left: Sample, stream: seq<Sample>, chunks: seq<Chunk>): Sample
    requires channels >= 1 && Total(chunks) == |stream|
    decreases |chunks|
  {
    if chunks == [] then left
    else
      var samples, rest := stream[..chunks[0].count], stream[chunks[0].count..];
      if !chunks[0].active then LeftThrough(channels, phase, left, rest, chunks[1..])
      else
        LeftThrough(channels, PhaseAfter(channels, phase, |samples|), LeftAfter(channels, phase, left, samples), rest,
                    chunks[1..])
  }

  /** What a tap copies of `stream`, which is pushed to it in `chunks`. */
  function CopiedThrough(channels: nat, phase: nat, left: Sample, stream: seq<Sample>, chunks: seq<Chunk>): seq<Sample>
    requires channels >= 1 && Total(chunks) == |stream|
    decreases |chunks|
  {
    if chunks == [] then []
    else
      var samples, rest := stream[..chunks[0].count], stream[chunks[0].count..];
      if !chunks[0].active then CopiedThrough(channels, phase, left, rest, chunks[1..])
      else
        Copied(channels, phase, left, samples)
        + CopiedThrough(channels, PhaseAfter(channels, phase, |samples|), LeftAfter(channels, phase, left, samples),
                        rest, chunks[1..])
  }

  method PushChunk(tap: Tap, stream: seq<Sample>, chunks: seq<Chunk>)
    requires tap.Valid() && Total(chunks) == |stream| && chunks != []
    modifies tap
    ensures tap.Valid() && old(tap.dropped) <= tap.dropped
    ensures chunks[0].count <= |stream| && Total(chunks[1..]) == |stream| - chunks[0].count
    ensures PhaseThrough(tap.channels, tap.phase, chunks[1..]) == PhaseThrough(tap.channels, old(tap.phase), chunks)
    ensures LeftThrough(tap.channels, tap.phase, tap.left, stream[chunks[0].count..], chunks[1..])
         == LeftThrough(tap.channels, old(tap.phase), old(tap.left), stream, chunks)
    ensures old(tap.dropped) < tap.dropped ==> |tap.ring| == tap.capacity
    ensures |tap.ring| + 2 * tap.dropped
            + |CopiedThrough(tap.channels, tap.phase, tap.left, stream[chunks[0].count..], chunks[1..])|
         == |old(tap.ring)| + 2 * old(tap.dropped)
            + |CopiedThrough(tap.channels, old(tap.phase), old(tap.left), stream, chunks)|
    ensures |old(tap.ring)| <= |tap.ring|
    ensures tap.dropped == old(tap.dropped) ==>
      tap.ring + CopiedThrough(tap.channels, tap.phase, tap.left, stream[chunks[0].count..], chunks[1..])
      == old(tap.ring) + CopiedThrough(tap.channels, old(tap.phase), old(tap.left), stream, chunks)
  {
    hide CopiedThrough, PhaseThrough, LeftThrough, Copied, LeftAfter, PhaseAfter, Total;
    FirstChunk(tap.channels, tap.phase, tap.left, stream, chunks);
    ghost var phase, left, ring := tap.phase, tap.left, tap.ring;
    var samples := stream[..chunks[0].count];
    tap.Push(samples, chunks[0].active);
    Regrouped(ring, Copied(tap.channels, phase, left, samples),
              CopiedThrough(tap.channels, tap.phase, tap.left, stream[chunks[0].count..], chunks[1..]));
  }

  /** Pushes `stream` to a tap. As long as no pair is dropped, the ring gains what `CopiedThrough` says. */
  method Play(tap: Tap, stream: seq<Sample>, chunks: seq<Chunk>)
    requires tap.Valid() && Total(chunks) == |stream|
    modifies tap
    ensures tap.Valid() && old(tap.dropped) <= tap.dropped
    ensures tap.phase == PhaseThrough(tap.channels, old(tap.phase), chunks)
    ensures tap.left == LeftThrough(tap.channels, old(tap.phase), old(tap.left), stream, chunks)
    ensures |tap.ring| + 2 * tap.dropped
         == |old(tap.ring)| + 2 * old(tap.dropped)
             + |CopiedThrough(tap.channels, old(tap.phase), old(tap.left), stream, chunks)|
    ensures old(tap.dropped) < tap.dropped ==> |tap.ring| == tap.capacity
    ensures tap.dropped == old(tap.dropped) ==>
      tap.ring == old(tap.ring) + CopiedThrough(tap.channels, old(tap.phase), old(tap.left), stream, chunks)
  {
    hide CopiedThrough, PhaseThrough, LeftThrough, Total;
    var samples, rest := stream, chunks;
    while rest != []
      invariant tap.Valid() && old(tap.dropped) <= tap.dropped && Total(rest) == |samples|
      invariant old(tap.dropped) < tap.dropped ==> |tap.ring| == tap.capacity
      invariant |tap.ring| + 2 * tap.dropped + |CopiedThrough(tap.channels, tap.phase, tap.left, samples, rest)|
             == |old(tap.ring)| + 2 * old(tap.dropped)
                 + |CopiedThrough(tap.channels, old(tap.phase), old(tap.left), stream, chunks)|
      invariant PhaseThrough(tap.channels, tap.phase, rest) == PhaseThrough(tap.channels, old(tap.phase), chunks)
      invariant LeftThrough(tap.channels, tap.phase, tap.left, samples, rest)
             == LeftThrough(tap.channels, old(tap.phase), old(tap.left), stream, chunks)
      invariant tap.dropped == old(tap.dropped) ==>
        tap.ring + CopiedThrough(tap.channels, tap.phase, tap.left, samples, rest)
        == old(tap.ring) + CopiedThrough(tap.channels, old(tap.phase), old(tap.left), stream, chunks)
      decreases |rest|
    {
      PushChunk(tap, samples, rest);
      samples, rest := samples[rest[0].count..], rest[1..];
    }
    NoChunks(tap.channels, tap.phase, tap.left, samples, rest);
  }

  lemma FirstChunk(channels: nat, phase: nat, left: Sample, stream: seq<Sample>, chunks: seq<Chunk>)
    requires channels >= 1 && Total(chunks) == |stream| && chunks != []
    ensures var chunk := chunks[0];
            && chunk.count <= |stream| && Total(chunks[1..]) == |stream| - chunk.count
            && var samples, rest := stream[..chunk.count], stream[chunk.count..];
               if chunk.active then
                 && PhaseThrough(channels, phase, chunks)
                     == PhaseThrough(channels, PhaseAfter(channels, phase, chunk.count), chunks[1..])
                 && LeftThrough(channels, phase, left, stream, chunks)
                    == LeftThrough(channels, PhaseAfter(channels, phase, chunk.count),
                                   LeftAfter(channels, phase, left, samples), rest, chunks[1..])
                 && CopiedThrough(channels, phase, left, stream, chunks)
                    == Copied(channels, phase, left, samples)
                       + CopiedThrough(channels, PhaseAfter(channels, phase, chunk.count),
                                       LeftAfter(channels, phase, left, samples), rest, chunks[1..])
               else
                 && PhaseThrough(channels, phase, chunks) == PhaseThrough(channels, phase, chunks[1..])
                 && LeftThrough(channels, phase, left, stream, chunks)
                     == LeftThrough(channels, phase, left, rest, chunks[1..])
                 && CopiedThrough(channels, phase, left, stream, chunks)
                     == CopiedThrough(channels, phase, left, rest, chunks[1..])
  {
  }

  lemma NoChunks(channels: nat, phase: nat, left: Sample, stream: seq<Sample>, chunks: seq<Chunk>)
    requires channels >= 1 && Total(chunks) == |stream| && chunks == []
    ensures PhaseThrough(channels, phase, chunks) == phase && CopiedThrough(channels, phase, left, stream, chunks) == []
    ensures LeftThrough(channels, phase, left, stream, chunks) == left
  {
  }

  // ---- Which channels are copied ----

  /** The samples at `at` and behind it, of every frame's length from there on. */
  function PairsFrom(channels: nat, stream: seq<Sample>, at: nat): seq<Sample>
    requires channels >= 2
    decreases |stream| - at
  {
    if at + 1 >= |stream| then [] else [stream[at], stream[at + 1]] + PairsFrom(channels, stream, at + channels)
  }

  /** Where a tap in `phase` next takes a left sample, from position `at` on. */
  function NextLeft(channels: nat, phase: nat, at: nat): nat
    requires phase < channels
  {
    if phase == 0 then at else at + channels - phase
  }

  /** The pair that has begun is completed by the next sample. */
  function Begun(phase: nat, left: Sample, stream: seq<Sample>, at: nat): seq<Sample> {
    if phase == 1 && at < |stream| then [left, stream[at]] else []
  }

  lemma FirstPair(channels: nat, stream: seq<Sample>, at: nat)
    requires channels >= 2 && at < |stream|
    ensures PairsFrom(channels, stream, at) == Begun(1, stream[at], stream, at + 1)
      + PairsFrom(channels, stream, at + channels)
  {
  }

  lemma NothingBehind(channels: nat, phase: nat, left: Sample, stream: seq<Sample>)
    requires channels >= 2 && phase < channels
    ensures Copied(channels, phase, left, stream[|stream|..]) == []
    ensures Begun(phase, left, stream, |stream|) == []
    ensures PairsFrom(channels, stream, NextLeft(channels, phase, |stream|)) == []
  {
  }

  /** What is copied from position `at` on: the right sample of a pair that has begun, then pairs of neighbours, a
      frame's length apart. */
  lemma {:induction false} CopiedIsPairsFrom(channels: nat, phase: nat, left: Sample, stream: seq<Sample>, at: nat)
    requires channels >= 2 && phase < channels && at <= |stream|
    ensures Copied(channels, phase, left, stream[at..])
         == Begun(phase, left, stream, at) + PairsFrom(channels, stream, NextLeft(channels, phase, at))
    decreases |stream| - at
  {
    hide Copied, PairAt, NextPhase, PairsFrom;
    if at == |stream| {
      NothingBehind(channels, phase, left, stream);
    } else {
      var samples := stream[at..];
      assert samples[0] == stream[at] && samples[1..] == stream[at + 1..];
      NextPhaseIs(channels, phase);
      CopiedFirst(channels, phase, left, samples);
      CopiedIsPairsFrom(channels, NextPhase(channels, phase), if phase == 0 then stream[at] else left, stream, at + 1);
      if phase == 0 {
        FirstPair(channels, stream, at);
      }
    }
  }

  lemma NextPhaseIs(channels: nat, phase: nat)
    requires phase < channels
    ensures NextPhase(channels, phase) == if phase + 1 < channels then phase + 1 else 0
  {
    if phase + 1 < channels {
      QuotientIs(phase + 1, channels, 0, phase + 1);
    } else {
      QuotientIs(phase + 1, channels, 1, 0);
    }
  }

  lemma CopiedFirst(channels: nat, phase: nat, left: Sample, samples: seq<Sample>)
    requires channels >= 2 && samples != []
    ensures Copied(channels, phase, left, samples)
         == PairAt(channels, phase, left, samples[0])
            + Copied(channels, NextPhase(channels, phase), if phase == 0 then samples[0] else left, samples[1..])
    ensures PairAt(channels, phase, left, samples[0]) == if phase == 1 then [left, samples[0]] else []
  {
  }

  lemma {:induction false} PhaseStaysBelow(channels: nat, phase: nat, chunks: seq<Chunk>)
    requires phase < channels
    ensures PhaseThrough(channels, phase, chunks) < channels
    decreases |chunks|
  {
    if chunks != [] {
      PhaseCounts(channels, phase, chunks[0].count);
      var next := if chunks[0].active then PhaseAfter(channels, phase, chunks[0].count) else phase;
      PhaseStaysBelow(channels, next, chunks[1..]);
    }
  }

  /** A tap's phase is what went by, less what it missed. */
  lemma {:induction false} PhaseIsWhatWasHeard(channels: nat, phase: nat, chunks: seq<Chunk>)
    requires phase < channels
    ensures PhaseThrough(channels, phase, chunks) == (phase + Total(chunks) - Missed(chunks)) % channels
    decreases |chunks|
  {
    if chunks == [] {
      QuotientIs(phase, channels, 0, phase);
    } else {
      var n := chunks[0].count;
      PhaseCounts(channels, phase, n);
      var next := if chunks[0].active then PhaseAfter(channels, phase, n) else phase;
      PhaseIsWhatWasHeard(channels, next, chunks[1..]);
      RemainderOfSum(phase + n, Total(chunks[1..]) - Missed(chunks[1..]), channels);
    }
  }

  /** After any pushes, the channel a tap next takes for the first one is as far from it as the samples it missed: those
      that were heard never change it, so a shift stays until it has missed a whole number of frames. */
  lemma TapIsOffByWhatItMissed(channels: nat, chunks: seq<Chunk>)
    requires channels >= 1
    ensures PhaseThrough(channels, 0, chunks) < channels
    ensures NextLeft(channels, PhaseThrough(channels, 0, chunks), Total(chunks)) % channels == Missed(chunks) % channels
  {
    PhaseStaysBelow(channels, 0, chunks);
    PhaseIsWhatWasHeard(channels, 0, chunks);
    OffByMissed(channels, PhaseThrough(channels, 0, chunks), Total(chunks), Missed(chunks));
  }

  lemma OffByMissed(channels: nat, phase: nat, total: nat, missed: nat)
    requires phase < channels && phase == (0 + total - missed) % channels
    ensures NextLeft(channels, phase, total) % channels == missed % channels
  {
    var difference := total - missed;
    assert phase == difference % channels;
    RemainderOfDifference(total, missed, channels);
  }

  // ---- Left and right ----

  /** A pair of the first two channels of one frame; mono doubled. */
  ghost predicate IsPair(channels: nat, stream: seq<Sample>, left: Sample, right: Sample)
    requires channels >= 1
  {
    exists at :: 0 <= at < |stream| && at % channels == 0 && stream[at] == left
                 && if channels == 1 then right == left else at + 1 < |stream| && stream[at + 1] == right
  }

  ghost predicate AllPairs(channels: nat, stream: seq<Sample>, copied: seq<Sample>)
    requires channels >= 1
    decreases |copied|
  {
    copied == [] || (|copied| >= 2 && IsPair(channels, stream, copied[0], copied[1])
                     && AllPairs(channels, stream, copied[2..]))
  }

  lemma {:induction false} AllPairsJoin(channels: nat, stream: seq<Sample>, a: seq<Sample>, b: seq<Sample>)
    requires channels >= 1 && AllPairs(channels, stream, a) && AllPairs(channels, stream, b)
    ensures AllPairs(channels, stream, a + b)
    decreases |a|
  {
    if a == [] {
      assert a + b == b;
    } else {
      AllPairsJoin(channels, stream, a[2..], b);
      assert (a + b)[2..] == a[2..] + b;
    }
  }

  ghost predicate AllWhole(channels: nat, chunks: seq<Chunk>)
    requires channels >= 1
  {
    forall c :: c in chunks ==> c.count % channels == 0
  }

  lemma {:induction false} CutIsWhole(channels: nat, count: nat, chunks: seq<Chunk>)
    requires channels >= 1 && FILL_CHUNK_SAMPLES % channels == 0 && count % channels == 0 && CutOf(count, chunks)
    ensures AllWhole(channels, chunks)
    decreases count
  {
    if count > FILL_CHUNK_SAMPLES {
      AlignedSum(count, FILL_CHUNK_SAMPLES, channels);
      CutIsWhole(channels, count - FILL_CHUNK_SAMPLES, chunks[1..]);
      assert chunks == [chunks[0]] + chunks[1..];
    }
  }

  lemma {:induction false} PlayedIsWhole(channels: nat, chunks: seq<Chunk>)
    requires channels >= 1 && FILL_CHUNK_SAMPLES % channels == 0 && Played(channels, chunks)
    ensures AllWhole(channels, chunks)
    decreases |chunks|
  {
    if chunks != [] {
      var n :| 0 < n <= |chunks| && WholeSegment(channels, chunks[..n]) && Played(channels, chunks[n..]);
      var count: nat :| count % channels == 0 && CutOf(count, chunks[..n]);
      CutIsWhole(channels, count, chunks[..n]);
      PlayedIsWhole(channels, chunks[n..]);
      assert chunks == chunks[..n] + chunks[n..];
    }
  }

  lemma {:induction false} WholeFramesAreRight(channels: nat, stream: seq<Sample>, at: nat, samples: seq<Sample>)
    requires channels >= 1 && at % channels == 0 && |samples| % channels == 0
    requires at + |samples| <= |stream| && stream[at..at + |samples|] == samples
    ensures AllPairs(channels, stream, Pairs(channels, samples))
    decreases |samples|
  {
    if samples != [] {
      AtLeastOne(|samples|, channels);
      AlignedSum(|samples|, channels, channels);
      AlignedSum(at, channels, channels);
      var rest := samples[channels..];
      assert stream[at + channels..at + channels + |rest|] == rest;
      WholeFramesAreRight(channels, stream, at + channels, rest);
      var right := if channels == 1 then samples[0] else samples[1];
      assert stream[at] == samples[0] && (channels == 1 || stream[at + 1] == right);
      assert IsPair(channels, stream, samples[0], right);
      var pairs := Pairs(channels, samples);
      assert pairs[2..] == Pairs(channels, rest);
    }
  }

  /** Pushes of whole frames leave a tap at the start of a frame, and it copies the right channels. */
  lemma {:induction false} WholePushesAreRight(channels: nat, left: Sample, stream: seq<Sample>, at: nat,
                                               chunks: seq<Chunk>)
    requires channels >= 1 && AllWhole(channels, chunks) && at <= |stream| && at % channels == 0
    requires Total(chunks) == |stream| - at
    ensures AllPairs(channels, stream, CopiedThrough(channels, 0, left, stream[at..], chunks))
    decreases |chunks|
  {
    if chunks != [] {
      var n := chunks[0].count;
      FirstChunk(channels, 0, left, stream[at..], chunks);
      assert chunks[0] in chunks && forall c :: c in chunks[1..] ==> c in chunks;
      assert stream[at..][n..] == stream[at + n..] && stream[at..][..n] == stream[at..at + n];
      AlignedSum(at, n, channels);
      hide CopiedThrough, Copied, Pairs, AllPairs, Total, PhaseAfter, LeftAfter;
      if chunks[0].active {
        var samples := stream[at..at + n];
        PhaseCounts(channels, 0, n);
        WholeFramesArePaired(channels, left, samples);
        WholeFramesAreRight(channels, stream, at, samples);
        WholePushesAreRight(channels, LeftAfter(channels, 0, left, samples), stream, at + n, chunks[1..]);
        AllPairsJoin(channels, stream, Pairs(channels, samples),
                     CopiedThrough(channels, 0, LeftAfter(channels, 0, left, samples), stream[at + n..], chunks[1..]));
      } else {
        WholePushesAreRight(channels, left, stream, at + n, chunks[1..]);
      }
    }
  }

  /** A listener that comes while a segment is being played, after one push of it. */
  function LateListener(channels: nat): seq<Chunk>
    requires channels >= 2
  {
    [Chunk(FILL_CHUNK_SAMPLES, false)] + seq(channels - 1, _ => Chunk(FILL_CHUNK_SAMPLES, true))
  }

  lemma {:induction false} FullChunksAreACut(chunks: seq<Chunk>)
    requires forall i :: 0 <= i < |chunks| ==> chunks[i].count == FILL_CHUNK_SAMPLES
    ensures CutOf(|chunks| * FILL_CHUNK_SAMPLES, chunks)
    decreases |chunks|
  {
    if |chunks| > 1 {
      FullChunksAreACut(chunks[1..]);
    }
  }

  lemma LateListenerPlays(channels: nat)
    requires channels >= 2
    ensures Played(channels, LateListener(channels))
  {
    var chunks := LateListener(channels);
    FullChunksAreACut(chunks);
    MultipleIs(FILL_CHUNK_SAMPLES, channels);
    assert chunks[..|chunks|] == chunks && chunks[|chunks|..] == [];
    assert WholeSegment(channels, chunks[..|chunks|]);
  }

  lemma {:induction false} HeardThroughout(channels: nat, phase: nat, left: Sample, stream: seq<Sample>,
                                           chunks: seq<Chunk>)
    requires channels >= 1 && Total(chunks) == |stream| && forall c :: c in chunks ==> c.active
    ensures CopiedThrough(channels, phase, left, stream, chunks) == Copied(channels, phase, left, stream)
    decreases |chunks|
  {
    if chunks != [] {
      var n := chunks[0].count;
      FirstChunk(channels, phase, left, stream, chunks);
      assert chunks[0] in chunks && forall c :: c in chunks[1..] ==> c in chunks;
      assert stream == stream[..n] + stream[n..];
      CopiedJoins(channels, phase, left, stream[..n], stream[n..]);
      HeardThroughout(channels, PhaseAfter(channels, phase, n), LeftAfter(channels, phase, left, stream[..n]),
                      stream[n..], chunks[1..]);
    }
  }

  lemma {:induction false} SameCounts(chunks: seq<Chunk>)
    requires forall c :: c in chunks ==> c.count == FILL_CHUNK_SAMPLES
    ensures Total(chunks) == |chunks| * FILL_CHUNK_SAMPLES
  {
    if chunks != [] {
      assert chunks[0] in chunks && forall c :: c in chunks[1..] ==> c in chunks;
      SameCounts(chunks[1..]);
    }
  }

  lemma {:induction false} NoneMissed(chunks: seq<Chunk>)
    requires forall c :: c in chunks ==> c.active
    ensures Missed(chunks) == 0
  {
    if chunks != [] {
      assert chunks[0] in chunks && forall c :: c in chunks[1..] ==> c in chunks;
      NoneMissed(chunks[1..]);
    }
  }

  /** What a tap copies for a listener that came one push late: neighbours from the 512th sample on, a frame's length
      apart. */
  lemma LateListenerHears(channels: nat, left: Sample, stream: seq<Sample>)
    requires channels >= 2 && |stream| == channels * FILL_CHUNK_SAMPLES
    ensures Total(LateListener(channels)) == |stream| && Missed(LateListener(channels)) == FILL_CHUNK_SAMPLES
    ensures CopiedThrough(channels, 0, left, stream, LateListener(channels))
      == PairsFrom(channels, stream, FILL_CHUNK_SAMPLES)
  {
    var chunks := LateListener(channels);
    SameCounts(chunks);
    NoneMissed(chunks[1..]);
    FirstChunk(channels, 0, left, stream, chunks);
    var rest := stream[FILL_CHUNK_SAMPLES..];
    HeardThroughout(channels, 0, left, rest, chunks[1..]);
    CopiedIsPairsFrom(channels, 0, left, stream, FILL_CHUNK_SAMPLES);
  }

  /** A tap copies the first two channels of the frames, whatever is played and whenever listeners come and go, exactly
      when the pushes of a segment, of 512 samples each, hold whole frames. */
  lemma AlwaysRightExactly(channels: nat)
    requires channels >= 1
    ensures (forall left, stream, chunks :: Played(channels, chunks) && Total(chunks) == |stream| ==>
               AllPairs(channels, stream, CopiedThrough(channels, 0, left, stream, chunks)))
            <==> FILL_CHUNK_SAMPLES % channels == 0
  {
    if FILL_CHUNK_SAMPLES % channels == 0 {
      forall left, stream: seq<Sample>, chunks | Played(channels, chunks) && Total(chunks) == |stream|
        ensures AllPairs(channels, stream, CopiedThrough(channels, 0, left, stream, chunks))
      {
        PlayedIsWhole(channels, chunks);
        assert stream[0..] == stream;
        MultipleIs(0, channels);
        WholePushesAreRight(channels, left, stream, 0, chunks);
      }
    } else {
      DividesByOne();
      LateListenerIsWrong(channels);
    }
  }

  lemma DividesByOne()
    ensures FILL_CHUNK_SAMPLES % 1 == 0
  {
  }

  /** The samples of a stream numbered in order. */
  function Numbers(count: nat): seq<Sample> { seq(count, i => i) }

  lemma LateListenerIsWrong(channels: nat)
    requires channels >= 2 && FILL_CHUNK_SAMPLES % channels != 0
    ensures var stream := Numbers(channels * FILL_CHUNK_SAMPLES);
            && Played(channels, LateListener(channels)) && Total(LateListener(channels)) == |stream|
            && !AllPairs(channels, stream, CopiedThrough(channels, 0, 0, stream, LateListener(channels)))
  {
    var stream := Numbers(channels * FILL_CHUNK_SAMPLES);
    LateListenerPlays(channels);
    LateListenerHears(channels, 0, stream);
    var copied := PairsFrom(channels, stream, FILL_CHUNK_SAMPLES);
    assert copied[0] == FILL_CHUNK_SAMPLES;
  }
}
