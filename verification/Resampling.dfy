/** The resampler: it buffers source frames into chunks for the conversion core, skips the core's delay, and
    makes the number of frames it emits exact when it is flushed. The core turns each chunk of `inChunk`
    frames into `outChunk` frames; a frame is named by its place in what the core put out. */
module Resampling {
  import opened Arithmetic
  import opened Timebase

  datatype Outcome = Done | ProcessingFailed

  /** The core's frames behind the delay, from the `from`-th to before the `to`-th. */
  function Emitted(delay: nat, from: nat, to: nat): (frames: seq<nat>)
    ensures |frames| == Beyond(to, from)
  {
    seq(Beyond(to, from), k => delay + from + k)
  }

  lemma EmittedJoins(delay: nat, a: nat, b: nat, c: nat)
    requires a <= b <= c
    ensures Emitted(delay, a, b) + Emitted(delay, b, c) == Emitted(delay, a, c)
  {
  }

  lemma EmittedCut(delay: nat, from: nat, to: nat, end: nat)
    requires from <= end <= to
    ensures Emitted(delay, from, to)[..end - from] == Emitted(delay, from, end)
  {
  }

  /** The frames the core puts out for `chunks` chunks. */
  function Core(rates: Rates, chunks: nat): nat { chunks * rates.outChunk }

  lemma CoreOneMore(rates: Rates, chunks: nat)
    ensures Core(rates, chunks + 1) == Core(rates, chunks) + rates.outChunk
  {
  }

  /** How many frames `total` source frames are at the output's rate, rounded up. */
  function Expected(rates: Rates, total: nat): nat
    requires rates.Valid()
  {
    CeilDiv(total * rates.outRate, rates.inRate)
  }

  /** Full chunks never put out more than the source frames in them are worth. */
  lemma ChunksWithinExpected(rates: Rates, chunks: nat, total: nat)
    requires rates.Valid() && chunks * rates.inChunk <= total
    ensures Core(rates, chunks) <= Expected(rates, total)
  {
    ChunksAddUp(rates, chunks, total - chunks * rates.inChunk);
  }

  /** When flushing fails: all the core puts out for the source, the last chunk filled up, is still delay,
      and that delay is whole chunks. */
  predicate FlushFails(rates: Rates, delay: nat, total: nat)
    requires rates.Valid()
  {
    total > 0 && Core(rates, CeilDiv(total, rates.inChunk)) < delay && delay % rates.outChunk == 0
  }

  /** A delay shorter than a chunk never fails. */
  lemma ShortDelaysFlush(rates: Rates, delay: nat, total: nat)
    requires rates.Valid() && delay < rates.outChunk
    ensures !FlushFails(rates, delay, total)
  {
    if total > 0 {
      CeilIsLeast(total, rates.inChunk);
      MulSign(CeilDiv(total, rates.inChunk), rates.outChunk);
    }
  }

  /** Which delays fail for some source: whole chunks, more than one of them. One source frame then is enough. */
  lemma DelaysThatFail(rates: Rates, delay: nat)
    requires rates.Valid()
    ensures (exists total :: FlushFails(rates, delay, total)) <==> delay > rates.outChunk && delay % rates.outChunk == 0
    ensures FlushFails(rates, 2 * rates.outChunk, 1)
  {
    CeilIs(1, rates.inChunk, 1);
    MultipleIs(2, rates.outChunk);
    forall total: nat | total > 0 ensures Core(rates, CeilDiv(total, rates.inChunk)) >= rates.outChunk {
      CeilIsLeast(total, rates.inChunk);
      MulSign(CeilDiv(total, rates.inChunk), rates.outChunk);
    }
    if delay > rates.outChunk && delay % rates.outChunk == 0 {
      assert FlushFails(rates, delay, 1);
    }
  }

  lemma TailOfChunks(rates: Rates, chunks: nat, buffered: nat)
    requires rates.Valid() && buffered < rates.inChunk
    ensures CeilDiv(chunks * rates.inChunk + buffered, rates.inChunk) == if buffered == 0 then chunks else chunks + 1
  {
    WholePart(chunks, buffered, rates.inChunk);
    if buffered > 0 {
      CeilIs(buffered, rates.inChunk, 1);
    }
  }

  /** A chunk of silence that is all delay, and the last of it, is put out exactly when flushing fails. */
  lemma DelayLeft(rates: Rates, delay: nat, total: nat, chunks: nat)
    requires rates.Valid() && total > 0 && CeilDiv(total, rates.inChunk) <= chunks
    ensures Beyond(delay, Core(rates, chunks)) == rates.outChunk ==> FlushFails(rates, delay, total)
    ensures FlushFails(rates, delay, total) && Beyond(delay, Core(rates, chunks)) > 0 ==>
              rates.outChunk <= Beyond(delay, Core(rates, chunks))
  {
    hide CeilDiv, Core;
    if Beyond(delay, Core(rates, chunks)) == rates.outChunk {
      CoreGrows(rates, CeilDiv(total, rates.inChunk), chunks);
      CoreOneMore(rates, chunks);
      CoreIsWhole(rates, chunks + 1);
    }
    if delay % rates.outChunk == 0 && delay > Core(rates, chunks) {
      CoreIsWhole(rates, chunks);
      AlignedSum(delay, Core(rates, chunks), rates.outChunk);
      RoundedDown(delay - Core(rates, chunks), rates.outChunk);
    }
  }

  lemma CoreGrows(rates: Rates, fewer: nat, chunks: nat)
    requires fewer <= chunks
    ensures Core(rates, fewer) <= Core(rates, chunks)
  {
    assert Core(rates, chunks) == Core(rates, fewer) + (chunks - fewer) * rates.outChunk;
  }

  lemma CoreIsWhole(rates: Rates, chunks: nat)
    requires rates.Valid()
    ensures Core(rates, chunks) % rates.outChunk == 0
  {
    MultipleIs(chunks, rates.outChunk);
  }

  class Resampler {
    const rates: Rates
    const delay: nat

    var inputFrames: nat
    var totalSource: nat
    var emitted: nat
    var delayRemaining: nat
    var finished: bool
    /** The core: how many chunks it has put out. */
    var chunks: nat

    ghost predicate InStep()
      reads this
    {
      && rates.Valid()
      && delayRemaining == Beyond(delay, Core(rates, chunks))
      && emitted == Beyond(Core(rates, chunks), delay)
    }

    ghost predicate Valid()
      reads this
    {
      rates.Valid() &&
      (!finished ==> InStep() && totalSource == chunks * rates.inChunk + inputFrames && inputFrames < rates.inChunk)
    }

    constructor (rates: Rates, delay: nat)
      requires rates.Valid()
      ensures Valid() && totalSource == 0 && emitted == 0 && !finished && this.rates == rates && this.delay == delay
    {
      this.rates, this.delay := rates, delay;
      inputFrames, totalSource, emitted, delayRemaining, finished := 0, 0, 0, delay, false;
      chunks := 0;
    }

    /** Buffers one source frame, and puts a full chunk through the core. */
    method Push() returns (output: seq<nat>)
      requires Valid() && !finished
      modifies this
      ensures Valid() && !finished && totalSource == old(totalSource) + 1
      ensures old(emitted) <= emitted && output == Emitted(delay, old(emitted), emitted)
    {
      inputFrames := inputFrames + 1;
      totalSource := totalSource + 1;
      output := [];
      if inputFrames == rates.inChunk {
        assert (chunks + 1) * rates.inChunk == chunks * rates.inChunk + rates.inChunk;
        output := Process();
      }
    }

    /** One chunk through the core: its frames come out but for the delay, which is skipped. */
    method Process() returns (output: seq<nat>)
      requires InStep()
      modifies this`inputFrames, this`delayRemaining, this`emitted, this`chunks
      ensures InStep() && chunks == old(chunks) + 1 && inputFrames == 0
      ensures old(emitted) <= emitted && output == Emitted(delay, old(emitted), emitted)
      ensures delayRemaining == Beyond(old(delayRemaining), rates.outChunk)
      ensures delayRemaining < old(delayRemaining) || old(emitted) < emitted
      ensures emitted == old(emitted) && delayRemaining == 0 <==> old(delayRemaining) == rates.outChunk
    {
      hide Core;
      inputFrames := 0;
      output := [];
      var core := Core(rates, chunks);
      for i := 0 to rates.outChunk
        invariant delayRemaining == Beyond(delay, core + i)
        invariant output == Emitted(delay, old(emitted), Beyond(core + i, delay))
        modifies this`delayRemaining
      {
        if delayRemaining > 0 {
          delayRemaining := delayRemaining - 1;
        } else {
          output := output + [core + i];
        }
      }
      emitted := emitted + |output|;
      CoreOneMore(rates, chunks);
      chunks := chunks + 1;
    }

    /** Puts out what is left of the source, so that in all exactly what it is worth was emitted. */
    method Flush() returns (outcome: Outcome, output: seq<nat>)
      requires Valid()
      modifies this
      ensures totalSource == old(totalSource) && old(emitted) <= emitted && (outcome == Done ==> Valid())
      ensures old(finished) ==> outcome == Done && output == [] && emitted == old(emitted) && finished
      ensures !old(finished) ==>
        (outcome == Done <==> !FlushFails(rates, delay, totalSource)) && (outcome == Done <==> finished)
      ensures !old(finished) && outcome == Done ==>
        && emitted == Expected(rates, totalSource)
        && totalSource * rates.outRate <= emitted * rates.inRate < totalSource * rates.outRate + rates.inRate
        && output == Emitted(delay, old(emitted), emitted)
    {
      hide FlushFails, CeilDiv, Emitted, Core;
      output := [];
      if finished {
        return Done, [];
      }
      var expected := Expected(rates, totalSource);
      CeilIsLeast(totalSource * rates.outRate, rates.inRate);
      if totalSource == 0 {
        NothingExpected();
        finished := true;
        return Done, [];
      }
      ghost var first := emitted;
      SomethingExpected();
      ChunksWithinExpected(rates, chunks, totalSource);
      TailOfChunks(rates, chunks, inputFrames);
      if inputFrames > 0 {
        output := Process();
      }
      if emitted > expected {
        EmittedCut(delay, first, emitted, expected);
        output := output[..|output| - (emitted - expected)];
        emitted := expected;
      }
      outcome, output := FlushSilence(expected, output, first);
      if outcome == Done {
        finished := true;
      }
    }

    lemma NothingExpected()
      requires Valid() && !finished && totalSource == 0
      ensures Expected(rates, 0) == 0 && emitted == 0 && !FlushFails(rates, delay, 0)
    {
      CeilIsLeast(0, rates.inRate);
    }

    lemma SomethingExpected()
      requires rates.Valid() && totalSource > 0
      ensures Expected(rates, totalSource) > 0
    {
      MulSign(totalSource, rates.outRate);
      CeilIsLeast(totalSource * rates.outRate, rates.inRate);
    }

    lemma FailsOverDelay()
      requires rates.Valid() && FlushFails(rates, delay, totalSource)
      ensures 0 < Beyond(delay, Core(rates, CeilDiv(totalSource, rates.inChunk)))
    {
    }

    /** Puts silence through the core until the expected frames are out. */
    method FlushSilence(expected: nat, sofar: seq<nat>, ghost first: nat) returns (outcome: Outcome, output: seq<nat>)
      requires rates.Valid() && totalSource > 0 && CeilDiv(totalSource, rates.inChunk) == chunks && 0 < expected
      requires delayRemaining == Beyond(delay, Core(rates, chunks))
      requires emitted == if Beyond(Core(rates, chunks), delay) <= expected then Beyond(Core(rates, chunks), delay)
        else expected
      requires first <= emitted && sofar == Emitted(delay, first, emitted)
      modifies this`inputFrames, this`delayRemaining, this`emitted, this`chunks
      ensures outcome == Done <==> !FlushFails(rates, delay, totalSource)
      ensures outcome == Done ==> emitted == expected && output == Emitted(delay, first, emitted)
      ensures first <= emitted
    {
      hide FlushFails, CeilDiv, Emitted, Core;
      if FlushFails(rates, delay, totalSource) {
        FailsOverDelay();
      }
      output := sofar;
      while emitted < expected
        invariant CeilDiv(totalSource, rates.inChunk) <= chunks && first <= emitted <= expected
        invariant delayRemaining == Beyond(delay, Core(rates, chunks))
        invariant emitted < expected ==> emitted == Beyond(Core(rates, chunks), delay)
        invariant emitted == expected ==> delayRemaining == 0
        invariant FlushFails(rates, delay, totalSource) ==> 0 < delayRemaining
        invariant output == Emitted(delay, first, emitted)
        decreases delayRemaining + (expected - emitted)
      {
        var before := emitted;
        DelayLeft(rates, delay, totalSource, chunks);
        var more := Process();
        EmittedJoins(delay, first, before, emitted);
        output := output + more;
        if emitted == before && delayRemaining == 0 {
          return ProcessingFailed, output;
        }
        if emitted > expected {
          EmittedCut(delay, first, emitted, expected);
          output := output[..|output| - (emitted - expected)];
          emitted := expected;
        }
      }
      outcome := Done;
    }
  }
}
