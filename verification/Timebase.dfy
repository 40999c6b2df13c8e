/** Conversions between frames and milliseconds, which round down and saturate, and the exact counts that
    resampling and seeking need. */
module Timebase {
  import opened Arithmetic

  const U64_MAX: nat := 0xFFFF_FFFF_FFFF_FFFF
  const U128_MAX: nat := 0xFFFF_FFFF_FFFF_FFFF_FFFF_FFFF_FFFF_FFFF

  function Scaled(value: nat, numerator: nat, denominator: nat): nat {
    if denominator == 0 then 0 else value * numerator / denominator
  }

  function Saturated(value: nat): nat {
    if value <= U64_MAX then value else U64_MAX
  }

  function Scale(value: nat, numerator: nat, denominator: nat): nat {
    Saturated(Scaled(value, numerator, denominator))
  }

  function FrameToMillis(frame: nat, sampleRate: nat): nat { Scale(frame, 1_000, sampleRate) }

  function MillisToFrame(millis: nat, sampleRate: nat): nat { Scale(millis, sampleRate, 1_000) }

  function RescaleFrame(frame: nat, toRate: nat, fromRate: nat): nat { Scale(frame, toRate, fromRate) }

  /** A conversion gives the most units that fit, and what does not fit into 64 bits saturates. */
  lemma ConvertsDown(value: nat, to: nat, from: nat)
    requires from >= 1
    ensures var r := RescaleFrame(value, to, from);
            && r * from <= value * to && (r < U64_MAX ==> value * to < r * from + from)
            && r <= U64_MAX
    ensures FrameToMillis(value, from) == RescaleFrame(value, 1_000, from)
    ensures MillisToFrame(value, to) == RescaleFrame(value, to, 1_000)
  {
    var q := value * to / from;
    assert q * from <= value * to < q * from + from;
    var r := RescaleFrame(value, to, from);
    MoreUnits(r, q, from);
  }

  lemma CeilIsLeast(a: nat, b: nat)
    requires b >= 1
    ensures a <= CeilDiv(a, b) * b < a + b
    ensures CeilDiv(a, b) == 0 <==> a == 0
  {
    var q := CeilDiv(a, b);
    assert a + b - 1 == q * b + (a + b - 1) % b;
    MulSign(q, b);
  }

  lemma CeilIs(a: nat, b: nat, q: nat)
    requires b >= 1 && a <= q * b < a + b
    ensures CeilDiv(a, b) == q
  {
    QuotientIs(a + b - 1, b, q, a + b - 1 - q * b);
  }

  /** Adding whole quotients commutes with rounding, down or up. */
  lemma WholePart(whole: nat, rest: nat, b: nat)
    requires b >= 1
    ensures (whole * b + rest) / b == whole + rest / b
    ensures CeilDiv(whole * b + rest, b) == whole + CeilDiv(rest, b)
  {
    WholeQuotient(whole, rest, b);
    WholeQuotient(whole, rest + b - 1, b);
  }

  lemma WholeQuotient(whole: nat, rest: nat, b: nat)
    requires b >= 1
    ensures (whole * b + rest) / b == whole + rest / b
  {
    var q := rest / b;
    assert (whole + q) * b == whole * b + q * b;
    QuotientIs(whole * b + rest, b, whole + q, rest % b);
  }

  /** A millisecond position read back from its frame is at most one frame's worth early. */
  lemma MillisRoundTrip(millis: nat, sampleRate: nat)
    requires sampleRate >= 1 && millis * sampleRate / 1_000 <= U64_MAX && millis <= U64_MAX
    ensures var back := FrameToMillis(MillisToFrame(millis, sampleRate), sampleRate);
            back <= millis && millis * sampleRate < (back + 1) * sampleRate + 1_000
  {
    var frame := millis * sampleRate / 1_000;
    assert frame * 1_000 <= millis * sampleRate < frame * 1_000 + 1_000;
    var back := frame * 1_000 / sampleRate;
    assert back * sampleRate <= frame * 1_000 < back * sampleRate + sampleRate;
    NotMoreUnits(back, millis, sampleRate);
    assert (back + 1) * sampleRate == back * sampleRate + sampleRate;
  }

  /** Resampler rates: whole chunks of one rate are whole chunks of the other. */
  datatype Rates = Rates(inRate: nat, outRate: nat, inChunk: nat, outChunk: nat) {
    ghost predicate Valid() {
      inRate >= 1 && outRate >= 1 && inChunk >= 1 && outChunk >= 1 && inChunk * outRate == outChunk * inRate
    }
  }

  lemma ChunksMatch(rates: Rates, chunks: nat)
    requires rates.Valid()
    ensures chunks * rates.inChunk * rates.outRate == chunks * rates.outChunk * rates.inRate
  {
    assert chunks * (rates.inChunk * rates.outRate) == chunks * rates.inChunk * rates.outRate;
    assert chunks * (rates.outChunk * rates.inRate) == chunks * rates.outChunk * rates.inRate;
  }

  /** Past whole chunks, counts at the other rate add up without rounding: of a position, and of a
      length. */
  lemma ChunksAddUp(rates: Rates, chunks: nat, frames: nat)
    requires rates.Valid()
    ensures chunks * rates.inChunk * rates.outRate / rates.inRate == chunks * rates.outChunk
    ensures (chunks * rates.inChunk + frames) * rates.outRate / rates.inRate
         == chunks * rates.outChunk + frames * rates.outRate / rates.inRate
    ensures CeilDiv((chunks * rates.inChunk + frames) * rates.outRate, rates.inRate)
         == chunks * rates.outChunk + CeilDiv(frames * rates.outRate, rates.inRate)
  {
    ChunksMatch(rates, chunks);
    MultipleIs(chunks * rates.outChunk, rates.inRate);
    assert (chunks * rates.inChunk + frames) * rates.outRate
        == chunks * rates.inChunk * rates.outRate + frames * rates.outRate;
    WholePart(chunks * rates.outChunk, frames * rates.outRate, rates.inRate);
  }

  lemma ScaledSplitsAtChunks(rates: Rates, start: nat, target: nat)
    requires rates.Valid() && start <= target && start % rates.inChunk == 0
    ensures Scaled(target, rates.outRate, rates.inRate)
         == Scaled(start, rates.outRate, rates.inRate) + Scaled(target - start, rates.outRate, rates.inRate)
  {
    var chunks := start / rates.inChunk;
    assert start == chunks * rates.inChunk;
    ChunksAddUp(rates, chunks, target - start);
  }

  /** Rescaling a position splits at any whole number of input chunks, with no rounding drift, up to the
      saturation of the whole. */
  lemma RescaleSplitsAtChunks(rates: Rates, start: nat, target: nat)
    requires rates.Valid() && start <= target && start % rates.inChunk == 0
    ensures RescaleFrame(target, rates.outRate, rates.inRate)
         == Saturated(RescaleFrame(start, rates.outRate, rates.inRate)
                      + RescaleFrame(target - start, rates.outRate, rates.inRate))
  {
    hide Scaled;
    ScaledSplitsAtChunks(rates, start, target);
  }

  /** Without a whole number of chunks a frame can be lost: at half the rate, 1 + 1 source frames are one
      output frame, but each alone is none. */
  lemma RescaleLosesAFrame()
    ensures RescaleFrame(1, 24_000, 48_000) + RescaleFrame(1, 24_000, 48_000) + 1 == RescaleFrame(2, 24_000, 48_000)
  {
  }
}
