/** Waveform analysis: samples are folded into chunks, long files in segments on several threads, and the chunks
    stitched together are those of one pass. */
module Chunking {
  import opened Arithmetic
  import opened Lists
  import opened Options

  type Sample = int

  /** What is kept of a chunk, and how many samples it has. */
  datatype Chunk<A> = Chunk(stats: A, samples: nat)

  /** How statistics are gathered, one sample at a time, in order. */
  datatype Gather<!A> = Gather(empty: A, step: (A, Sample) -> A) {
    function Fold(s: seq<Sample>): A {
      if s == [] then empty else step(Fold(s[..|s| - 1]), s[|s| - 1])
    }

    function Of(s: seq<Sample>): Chunk<A> { Chunk(Fold(s), |s|) }
  }

  /** Every sample is gathered once, in order: a list of the samples is the samples. */
  lemma {:induction false} GatheredInOrder(s: seq<Sample>)
    ensures Gather([], (list: seq<Sample>, x: Sample) => list + [x]).Fold(s) == s
  {
    if s != [] {
      GatheredInOrder(s[..|s| - 1]);
    }
  }

  /** The chunks of `s`: `size` samples each, the last one what is left. */
  function Serial<A>(g: Gather<A>, s: seq<Sample>, size: nat): (chunks: seq<Chunk<A>>)
    requires size >= 1
  {
    if s == [] then []
    else if |s| < size then [g.Of(s)]
    else [g.Of(s[..size])] + Serial(g, s[size..], size)
  }

  function Complete<A>(g: Gather<A>, s: seq<Sample>, size: nat): seq<Chunk<A>>
    requires size >= 1
  {
    if |s| < size then [] else [g.Of(s[..size])] + Complete(g, s[size..], size)
  }

  /** The samples behind the last complete chunk. */
  function Open(s: seq<Sample>, size: nat): (rest: seq<Sample>)
    requires size >= 1
    ensures |rest| < size
  {
    if |s| < size then s else Open(s[size..], size)
  }

  lemma {:induction false} SerialIsCompleteAndOpen<A>(g: Gather<A>, s: seq<Sample>, size: nat)
    requires size >= 1
    ensures Serial(g, s, size)
         == Complete(g, s, size) + if Open(s, size) == [] then [] else [g.Of(Open(s, size))]
    decreases |s|
  {
    if |s| >= size {
      SerialIsCompleteAndOpen(g, s[size..], size);
    }
  }

  /** Taking in samples that at most complete the open chunk. */
  lemma {:induction false} TakeIn<A>(g: Gather<A>, s: seq<Sample>, part: seq<Sample>, size: nat)
    requires size >= 1 && |Open(s, size)| + |part| <= size
    ensures |Open(s, size) + part| < size ==>
              Complete(g, s + part, size) == Complete(g, s, size) && Open(s + part, size) == Open(s, size) + part
    ensures |Open(s, size) + part| == size ==>
              Complete(g, s + part, size) == Complete(g, s, size) + [g.Of(Open(s, size) + part)]
                  && Open(s + part, size) == []
    decreases |s|
  {
    if |s| < size {
      if |s + part| == size {
        assert (s + part)[..size] == s + part && (s + part)[size..] == [];
      }
    } else {
      TakeIn(g, s[size..], part, size);
      assert (s + part)[..size] == s[..size] && (s + part)[size..] == s[size..] + part;
    }
  }

  lemma {:induction false} MoreComplete<A>(g: Gather<A>, s: seq<Sample>, more: seq<Sample>, size: nat)
    requires size >= 1
    ensures Complete(g, s, size) <= Complete(g, s + more, size)
    decreases |s|
  {
    if |s| >= size {
      MoreComplete(g, s[size..], more, size);
      assert (s + more)[..size] == s[..size] && (s + more)[size..] == s[size..] + more;
    }
  }

  class Chunker<!A> {
    const g: Gather<A>
    const size: nat
    var current: A
    var currentSamples: nat
    var chunks: seq<Chunk<A>>
    /** All samples taken in. */
    ghost var taken: seq<Sample>

    ghost predicate Valid()
      reads this
    {
      && size >= 1
      && chunks == Complete(g, taken, size)
      && current == g.Fold(Open(taken, size)) && currentSamples == |Open(taken, size)|
    }

    constructor (g: Gather<A>, size: nat)
      requires size >= 1
      ensures Valid() && taken == [] && chunks == [] && this.g == g && this.size == size
    {
      this.g, this.size := g, size;
      current, currentSamples, chunks, taken := g.empty, 0, [], [];
    }

    /** Adds the samples of `part` to the open chunk, and completes it if it is full. */
    method TakePart(part: seq<Sample>)
      requires Valid() && currentSamples + |part| <= size
      modifies this
      ensures Valid() && taken == old(taken) + part
    {
      ghost var open := Open(taken, size);
      TakeIn(g, taken, part, size);
      assert open + part[..0] == open;
      for i := 0 to |part|
        invariant current == g.Fold(open + part[..i])
        modifies this`current
      {
        assert (open + part[..i + 1])[..|open| + i] == open + part[..i];
        current := g.step(current, part[i]);
      }
      assert part[..|part|] == part;
      currentSamples := currentSamples + |part|;
      taken := taken + part;
      if currentSamples >= size {
        chunks := chunks + [Chunk(current, currentSamples)];
        current, currentSamples := g.empty, 0;
      }
    }

    /** Takes samples in, to the end or until `limit` chunks are complete; says whether they are. */
    method Push(samples: seq<Sample>, limit: Option<nat>) returns (reached: bool)
      requires Valid() && (limit.Some? ==> |chunks| < limit.value)
      modifies this
      ensures Valid() && old(taken) <= taken <= old(taken) + samples
      ensures !reached ==> taken == old(taken) + samples && (limit.Some? ==> |chunks| < limit.value)
      ensures reached ==> limit.Some? && |chunks| == limit.value
    {
      hide Complete, Open, Gather.Fold, Gather.Of;
      var offset := 0;
      while offset < |samples|
        invariant offset <= |samples| && Valid() && taken == old(taken) + samples[..offset]
        invariant limit.Some? ==> |chunks| < limit.value
      {
        var room := size - currentSamples;
        var length := if room < |samples| - offset then room else |samples| - offset;
        var part := samples[offset..offset + length];
        assert samples[..offset + length] == samples[..offset] + part;
        TakeIn(g, taken, part, size);
        assert old(taken) + (samples[..offset] + part) == (old(taken) + samples[..offset]) + part;
        TakePart(part);
        offset := offset + length;
        if limit.Some? && |chunks| >= limit.value {
          assert samples == samples[..offset] + samples[offset..];
          return true;
        }
      }
      assert samples[..|samples|] == samples;
      reached := false;
    }

    /** The chunks of everything taken in. */
    method Finish() returns (all: seq<Chunk<A>>)
      requires Valid()
      ensures all == Serial(g, taken, size)
    {
      SerialIsCompleteAndOpen(g, taken, size);
      all := chunks;
      if currentSamples > 0 {
        all := all + [Chunk(current, currentSamples)];
      }
    }
  }

  function Take<T>(s: seq<T>, limit: Option<nat>): seq<T> {
    if limit.Some? && limit.value < |s| then s[..limit.value] else s
  }

  /** One range: however the samples are cut into packets, the result is the first chunks of one pass over them. */
  method AnalyzeRange<A>(g: Gather<A>, size: nat, packets: seq<seq<Sample>>, limit: Option<nat>)
    returns (chunks: seq<Chunk<A>>)
    requires size >= 1 && (limit.Some? ==> limit.value >= 1)
    ensures chunks == Take(Serial(g, Flat(packets), size), limit)
  {
    var chunker := new Chunker<A>(g, size);
    for i := 0 to |packets|
      invariant chunker.Valid() && chunker.g == g && chunker.size == size && chunker.taken == Flat(packets[..i])
      invariant limit.Some? ==> |chunker.chunks| < limit.value
    {
      assert packets[..i + 1] == packets[..i] + [packets[i]];
      FlatMore(packets[..i], packets[i]);
      var reached := chunker.Push(packets[i], limit);
      if reached {
        ReachedEarly(g, packets, i + 1, chunker.taken, size, limit.value);
        return chunker.chunks;
      }
    }
    assert packets[..|packets|] == packets;
    chunks := chunker.Finish();
    SerialIsCompleteAndOpen(g, Flat(packets), size);
  }

  lemma ReachedEarly<A>(g: Gather<A>, packets: seq<seq<Sample>>, i: nat, taken: seq<Sample>, size: nat, limit: nat)
    requires size >= 1 && i <= |packets| && taken <= Flat(packets[..i]) && |Complete(g, taken, size)| == limit
    ensures Complete(g, taken, size) == Take(Serial(g, Flat(packets), size), Some(limit))
  {
    FlatPrefix(packets, i);
    hide Flat, Serial, Complete;
    var all := Flat(packets);
    assert all == taken + all[|taken|..];
    MoreComplete(g, taken, all[|taken|..], size);
    SerialIsCompleteAndOpen(g, all, size);
    PrefixTaken(Complete(g, taken, size), Serial(g, all, size));
  }

  lemma PrefixTaken<T>(prefix: seq<T>, all: seq<T>)
    requires prefix <= all
    ensures prefix == Take(all, Some(|prefix|))
  {
  }

  // ---- Segments ----

  /** The samples of `chunks` whole chunks. */
  function SamplesOf(chunks: nat, size: nat): nat { chunks * size }

  lemma OneChunkMore(chunks: nat, size: nat)
    ensures SamplesOf(chunks + 1, size) == SamplesOf(chunks, size) + size
  {
  }

  /** The chunks of what follows `start` whole chunks are the chunks from there on. */
  lemma {:induction false} SerialFrom<A>(g: Gather<A>, s: seq<Sample>, size: nat, start: nat)
    requires size >= 1
    ensures Serial(g, Drop(s, SamplesOf(start, size)), size) == Drop(Serial(g, s, size), start)
    decreases start
  {
    if start > 0 {
      OneChunkMore(start - 1, size);
      DropTwice(s, size, SamplesOf(start - 1, size));
      DropTwice(Serial(g, s, size), 1, start - 1);
      hide SamplesOf;
      SerialFrom(g, Drop(s, size), size, start - 1);
      FirstChunk(g, s, size);
    }
  }

  lemma FirstChunk<A>(g: Gather<A>, s: seq<Sample>, size: nat)
    requires size >= 1
    ensures Serial(g, Drop(s, size), size) == Drop(Serial(g, s, size), 1)
  {
  }

  /** Chunk `i` is of the samples from `i` whole chunks on, as many as make a chunk or are left. */
  lemma ChunkAt<A>(g: Gather<A>, s: seq<Sample>, size: nat, i: nat, at: nat)
    requires size >= 1 && at == i * size
    ensures i < |Serial(g, s, size)| <==> at < |s|
    ensures at < |s| ==> Serial(g, s, size)[i] == g.Of(s[at..if at + size < |s| then at + size else |s|])
  {
    hide *;
    SerialFromSample(g, s, size, i, at);
    FirstOfSerial(g, Drop(s, at), size);
    DroppedFirst(Serial(g, s, size), i);
    DroppedFirst(s, at);
    if at < |s| {
      SliceOfRest(s, at, size);
    }
  }

  lemma SerialFromSample<A>(g: Gather<A>, s: seq<Sample>, size: nat, i: nat, at: nat)
    requires size >= 1 && at == i * size
    ensures Serial(g, Drop(s, at), size) == Drop(Serial(g, s, size), i)
  {
    SerialFrom(g, s, size, i);
    assert SamplesOf(i, size) == at;
  }

  lemma SliceOfRest<T>(s: seq<T>, at: nat, size: nat)
    requires at < |s|
    ensures s[at..][..if size < |s[at..]| then size else |s[at..]|] == s[at..if at + size < |s| then at + size else |s|]
  {
  }

  lemma DroppedFirst<T>(s: seq<T>, count: nat)
    ensures Drop(s, count) == [] <==> |s| <= count
    ensures count < |s| ==> Drop(s, count) == s[count..] && Drop(s, count)[0] == s[count]
  {
  }

  lemma FirstOfSerial<A>(g: Gather<A>, s: seq<Sample>, size: nat)
    requires size >= 1
    ensures Serial(g, s, size) == [] <==> s == []
    ensures s != [] ==> Serial(g, s, size)[0] == g.Of(s[..if size < |s| then size else |s|])
  {
    assert |s| <= size ==> s[..|s|] == s;
  }

  const CHUNK_FRAMES: nat := 2048
  const MIN_SEGMENT_CHUNKS: nat := 256

  /** A segment's analysis: its first chunks, or a failure. */
  datatype Segment<A> = Analyzed(chunks: seq<Chunk<A>>) | SegmentFailed

  datatype Parallel<A> = Whole(chunks: seq<Chunk<A>>) | NotSplittable | Refused

  function SegmentLimit(index: nat, segments: nat, perSegment: nat): Option<nat> {
    if index + 1 < segments then Some(perSegment) else None
  }

  /** What segment `index` yields when it does not fail: it seeks to its first chunk and decodes its share. */
  function SegmentOf<A>(serial: seq<Chunk<A>>, index: nat, segments: nat, perSegment: nat): seq<Chunk<A>> {
    Take(Drop(serial, SamplesOf(index, perSegment)), SegmentLimit(index, segments, perSegment))
  }

  function Segments(threads: nat, totalChunks: nat): nat {
    if threads < totalChunks / MIN_SEGMENT_CHUNKS then threads else totalChunks / MIN_SEGMENT_CHUNKS
  }

  /** As many segments as there are threads, or as there are full shares of 256 chunks. */
  lemma SegmentsAreShares(threads: nat, totalChunks: nat)
    ensures var segments := Segments(threads, totalChunks);
            && segments <= threads && segments * 256 <= totalChunks
            && (segments == threads || totalChunks < (segments + 1) * 256)
  {
  }

  lemma MoreChunksMoreSamples(fewer: nat, more: nat, size: nat)
    requires fewer <= more
    ensures SamplesOf(fewer, size) <= SamplesOf(more, size)
  {
    assert more * size == fewer * size + (more - fewer) * size;
  }

  lemma EnoughPerSegment(threads: nat, totalChunks: nat)
    requires Segments(threads, totalChunks) > 1
    ensures totalChunks / Segments(threads, totalChunks) >= MIN_SEGMENT_CHUNKS
  {
    var segments := Segments(threads, totalChunks);
    var most := totalChunks / MIN_SEGMENT_CHUNKS;
    assert segments * MIN_SEGMENT_CHUNKS <= most * MIN_SEGMENT_CHUNKS <= totalChunks;
    var per := totalChunks / segments;
    assert totalChunks == per * segments + totalChunks % segments;
    NotMoreUnits(MIN_SEGMENT_CHUNKS, per, segments);
  }

  /** Every segment, decoded from its own first chunk. */
  method AnalyzeSegments<A>(g: Gather<A>, size: nat, samples: seq<Sample>, source: nat -> seq<seq<Sample>>,
                            fails: nat -> bool,
                            segments: nat, perSegment: nat)
    returns (results: seq<Segment<A>>)
    requires size >= 1 && perSegment >= 1
    requires forall start :: Flat(source(start)) == Drop(samples, SamplesOf(start, size))
    ensures |results| == segments
    ensures forall i :: 0 <= i < segments ==>
      results[i] == if fails(i) then SegmentFailed
          else Analyzed(SegmentOf(Serial(g, samples, size), i, segments, perSegment))
  {
    hide Serial, Flat, Drop, SamplesOf, Take;
    results := [];
    for index := 0 to segments
      invariant |results| == index
      invariant forall i :: 0 <= i < index ==>
        results[i] == if fails(i) then SegmentFailed
            else Analyzed(SegmentOf(Serial(g, samples, size), i, segments, perSegment))
    {
      if fails(index) {
        results := results + [SegmentFailed];
      } else {
        var start := SamplesOf(index, perSegment);
        SerialFrom(g, samples, size, start);
        var chunks := AnalyzeRange(g, size, source(start), SegmentLimit(index, segments, perSegment));
        results := results + [Analyzed(chunks)];
      }
    }
  }

  /** Puts the segments together; a short one but the last means that the length or a seek was off. */
  method Stitch<A>(ghost serial: seq<Chunk<A>>, ghost fails: nat -> bool, results: seq<Segment<A>>, segments: nat,
                   perSegment: nat)
    returns (result: Parallel<A>)
    requires segments > 1 && perSegment >= 1 && |results| == segments
    requires forall i :: 0 <= i < segments ==>
      results[i] == if fails(i) then SegmentFailed else Analyzed(SegmentOf(serial, i, segments, perSegment))
    ensures !result.NotSplittable? && (result.Whole? ==> result.chunks == serial)
    ensures result.Whole? <==>
      (forall i :: 0 <= i < segments ==> !fails(i)) && SamplesOf(segments - 1, perSegment) <= |serial|
  {
    hide SamplesOf;
    var chunks := [];
    Nothing(perSegment);
    for index := 0 to segments
      invariant index < segments ==>
        SamplesOf(index, perSegment) <= |serial| && chunks == serial[..SamplesOf(index, perSegment)]
      invariant index == segments ==> SamplesOf(segments - 1, perSegment) <= |serial| && chunks == serial
      invariant forall i :: 0 <= i < index ==> !fails(i)
    {
      if results[index].SegmentFailed? {
        return Refused;
      }
      var segment := results[index].chunks;
      OneChunkMore(index, perSegment);
      if index + 1 < segments && |segment| != perSegment {
        MoreChunksMoreSamples(index + 1, segments - 1, perSegment);
        return Refused;
      }
      chunks := chunks + segment;
    }
    result := Whole(chunks);
  }

  lemma Nothing(size: nat)
    ensures SamplesOf(0, size) == 0
  {
  }

  /** Analyzes on several threads. `source` gives the packets decoded from a chunk on; a seek is accurate, so they
      hold the samples from there to the end, however they are cut. `fails` says which segments fail. The length
      estimate may be wrong: the chunks are those of one pass, or there is no result. */
  method AnalyzeParallel<A>(g: Gather<A>, size: nat, samples: seq<Sample>, source: nat -> seq<seq<Sample>>,
                            fails: nat -> bool,
                            totalFrames: Option<nat>, threads: nat)
    returns (result: Parallel<A>)
    requires size >= 1 && forall start :: Flat(source(start)) == Drop(samples, SamplesOf(start, size))
    ensures result.Whole? ==> result.chunks == Serial(g, samples, size)
    ensures var segments :=
              if totalFrames.Some? then Segments(threads, CeilDiv(totalFrames.value, CHUNK_FRAMES)) else 0;
            && (result.NotSplittable? <==> segments <= 1)
            && (segments > 1 ==>
                  (result.Whole? <==>
                     && (forall i :: 0 <= i < segments ==> !fails(i))
                     && SamplesOf(segments - 1, CeilDiv(totalFrames.value, CHUNK_FRAMES) / segments)
                         <= |Serial(g, samples, size)|))
  {
    if threads <= 1 || totalFrames.None? {
      return NotSplittable;
    }
    var totalChunks := CeilDiv(totalFrames.value, CHUNK_FRAMES);
    var segments := Segments(threads, totalChunks);
    if segments <= 1 {
      return NotSplittable;
    }
    var perSegment := totalChunks / segments;
    EnoughPerSegment(threads, totalChunks);
    var results := AnalyzeSegments(g, size, samples, source, fails, segments, perSegment);
    result := Stitch(Serial(g, samples, size), fails, results, segments, perSegment);
  }

  /** The whole analysis: in parallel where that works out, otherwise in one pass; the same chunks either way. */
  method Analyze<A>(g: Gather<A>, size: nat, samples: seq<Sample>, source: nat -> seq<seq<Sample>>, fails: nat -> bool,
                    totalFrames: Option<nat>, threads: nat)
    returns (chunks: seq<Chunk<A>>)
    requires size >= 1 && forall start :: Flat(source(start)) == Drop(samples, SamplesOf(start, size))
    ensures chunks == Serial(g, samples, size)
  {
    var parallel := AnalyzeParallel(g, size, samples, source, fails, totalFrames, threads);
    if parallel.Whole? {
      return parallel.chunks;
    }
    Nothing(size);
    chunks := AnalyzeRange(g, size, source(0), None);
  }
}
