/** A waveform from its chunks, and the form it is cached in. */
module Waveform {
  import opened Arithmetic
  import opened Options

  const WAVEFORM_BUCKETS: nat := 1_000

  /** Magnitudes and their sums, exact. */
  datatype ChunkStats = ChunkStats(peak: nat, squareSum: nat, samples: nat)

  // ---- Reducing chunks to buckets ----

  function Buckets(chunks: nat): (k: nat)
    ensures k <= chunks && k <= WAVEFORM_BUCKETS && (chunks > 0 ==> k > 0)
    ensures k == chunks || k == WAVEFORM_BUCKETS
  {
    if chunks < WAVEFORM_BUCKETS then chunks else WAVEFORM_BUCKETS
  }

  /** Where bucket `b` of `k` begins among `n` chunks. */
  function Begin(b: nat, n: nat, k: nat): nat
    requires k >= 1
  {
    b * n / k
  }

  lemma BucketsEnd(n: nat, k: nat)
    requires 1 <= k <= n
    ensures Begin(0, n, k) == 0 && Begin(k, n, k) == n
  {
    QuotientIs(k * n, k, n, 0);
    QuotientIs(0, k, 0, 0);
  }

  lemma BucketsGrow(b: nat, n: nat, k: nat)
    requires 1 <= k <= n
    ensures Begin(b, n, k) < Begin(b + 1, n, k)
  {
    var here, next := Begin(b, n, k), Begin(b + 1, n, k);
    assert (b + 1) * n == b * n + n;
    assert here * k <= b * n && (b + 1) * n < next * k + k;
    assert (here + 1) * k == here * k + k;
    NotMoreUnits(here + 1, next, k);
  }

  lemma BucketsFit(b: nat, n: nat, k: nat)
    requires 1 <= k <= n && b < k
    ensures Begin(b + 1, n, k) <= n
  {
    var shares := (b + 1) * n;
    MoreUnits(b + 1, k, n);
    var next := shares / k;
    assert next * k <= shares;
    NotMoreUnits(next, n, k);
  }

  /** Every bucket ends where the next begins, holds a chunk at least, and together they are all chunks. */
  lemma BucketsPartition(b: nat, n: nat, k: nat)
    requires 1 <= k <= n && b < k
    ensures Begin(b, n, k) < Begin(b + 1, n, k) <= n
    ensures Begin(0, n, k) == 0 && Begin(k, n, k) == n
  {
    hide Begin;
    BucketsEnd(n, k);
    BucketsGrow(b, n, k);
    BucketsFit(b, n, k);
  }

  /** No bucket holds two chunks more than another. */
  lemma BucketsAreEven(b: nat, n: nat, k: nat)
    requires 1 <= k <= n && b < k
    ensures n / k <= Begin(b + 1, n, k) - Begin(b, n, k) <= n / k + 1
  {
    var here, next, share := Begin(b, n, k), Begin(b + 1, n, k), n / k;
    assert (b + 1) * n == b * n + n;
    assert here * k <= b * n < here * k + k && next * k <= b * n + n < next * k + k && share * k <= n < share * k + k;
    assert (here + share) * k == here * k + share * k && (here + share + 2) * k == here * k + share * k + 2 * k;
    NotMoreUnits(here + share, next, k);
    assert (next - 1) * k == next * k - k;
    NotMoreUnits(next - 1, here + share, k);
  }

  function Peak(chunks: seq<ChunkStats>): nat {
    if chunks == [] then 0
    else
      var before := Peak(chunks[..|chunks| - 1]);
      if before < chunks[|chunks| - 1].peak then chunks[|chunks| - 1].peak else before
  }

  function SquareSum(chunks: seq<ChunkStats>): nat {
    if chunks == [] then 0 else SquareSum(chunks[..|chunks| - 1]) + chunks[|chunks| - 1].squareSum
  }

  function Samples(chunks: seq<ChunkStats>): nat {
    if chunks == [] then 0 else Samples(chunks[..|chunks| - 1]) + chunks[|chunks| - 1].samples
  }

  /** A bucket's peak bounds its chunks' peaks, and one of them reaches it. */
  lemma {:induction false} PeakIsReached(chunks: seq<ChunkStats>)
    ensures forall c :: c in chunks ==> c.peak <= Peak(chunks)
    ensures chunks != [] ==> exists c :: c in chunks && c.peak == Peak(chunks)
  {
    if chunks != [] {
      var rest, last := chunks[..|chunks| - 1], chunks[|chunks| - 1];
      PeakIsReached(rest);
      assert chunks == rest + [last];
      assert last in chunks;
    }
  }

  lemma {:induction false} SumsJoin(a: seq<ChunkStats>, b: seq<ChunkStats>)
    ensures Samples(a + b) == Samples(a) + Samples(b) && SquareSum(a + b) == SquareSum(a) + SquareSum(b)
  {
    if b == [] {
      assert a + b == a;
    } else {
      assert (a + b)[..|a + b| - 1] == a + b[..|b| - 1];
      SumsJoin(a, b[..|b| - 1]);
    }
  }

  /** What a bucket of these chunks says. */
  function Merged(chunks: seq<ChunkStats>): ChunkStats {
    ChunkStats(Peak(chunks), SquareSum(chunks), Samples(chunks))
  }

  /** The chunks of bucket `b`. */
  function BucketOf(chunks: seq<ChunkStats>, b: nat): seq<ChunkStats>
    requires b < Buckets(|chunks|)
  {
    var n, k := |chunks|, Buckets(|chunks|);
    BucketsPartition(b, n, k);
    chunks[Begin(b, n, k)..Begin(b + 1, n, k)]
  }

  /** Merges the chunks into at most `WAVEFORM_BUCKETS` buckets. */
  method Reduce(chunks: seq<ChunkStats>) returns (buckets: seq<ChunkStats>)
    ensures |buckets| == Buckets(|chunks|)
    ensures forall b :: 0 <= b < |buckets| ==> buckets[b] == Merged(BucketOf(chunks, b))
    ensures Samples(buckets) == Samples(chunks) && SquareSum(buckets) == SquareSum(chunks)
  {
    var n, k := |chunks|, Buckets(|chunks|);
    buckets := [];
    if k == 0 {
      return;
    }
    BucketsPartition(0, n, k);
    assert chunks[..0] == [];
    for bucket := 0 to k
      invariant |buckets| == bucket && Begin(bucket, n, k) <= n
      invariant forall b :: 0 <= b < bucket ==> buckets[b] == Merged(BucketOf(chunks, b))
      invariant Samples(buckets) == Samples(chunks[..Begin(bucket, n, k)])
      invariant SquareSum(buckets) == SquareSum(chunks[..Begin(bucket, n, k)])
    {
      BucketsPartition(bucket, n, k);
      var start := Begin(bucket, n, k);
      var end := if Begin(bucket + 1, n, k) < start + 1 then start + 1 else Begin(bucket + 1, n, k);
      var merged := MergeRange(chunks[start..end]);
      assert chunks[..end] == chunks[..start] + chunks[start..end];
      SumsJoin(chunks[..start], chunks[start..end]);
      SumsJoin(buckets, [merged]);
      OneSum(merged);
      buckets := buckets + [merged];
    }
    assert chunks[..n] == chunks;
  }

  lemma OneSum(c: ChunkStats)
    ensures Samples([c]) == c.samples && SquareSum([c]) == c.squareSum
  {
    assert [c][..0] == [];
    assert Samples([]) == 0 && SquareSum([]) == 0;
  }

  method MergeRange(chunks: seq<ChunkStats>) returns (merged: ChunkStats)
    ensures merged == Merged(chunks)
  {
    var peak, squareSum, samples := 0, 0, 0;
    for i := 0 to |chunks|
      invariant peak == Peak(chunks[..i]) && squareSum == SquareSum(chunks[..i]) && samples == Samples(chunks[..i])
    {
      assert chunks[..i + 1][..i] == chunks[..i];
      peak := if peak < chunks[i].peak then chunks[i].peak else peak;
      squareSum := squareSum + chunks[i].squareSum;
      samples := samples + chunks[i].samples;
    }
    assert chunks[..|chunks|] == chunks;
    merged := ChunkStats(peak, squareSum, samples);
  }

  /** Every chunk is in exactly one bucket. */
  lemma {:induction false} ChunkIsInOneBucket(n: nat, k: nat, buckets: nat, i: nat) returns (b: nat)
    requires 1 <= buckets <= k <= n && i < Begin(buckets, n, k)
    ensures b < buckets && Begin(b, n, k) <= i < Begin(b + 1, n, k)
    ensures forall other :: 0 <= other < buckets && Begin(other, n, k) <= i < Begin(other + 1, n, k) ==> other == b
    decreases buckets
  {
    hide Begin;
    BucketsPartition(buckets - 1, n, k);
    if buckets > 1 && i < Begin(buckets - 1, n, k) {
      b := ChunkIsInOneBucket(n, k, buckets - 1, i);
    } else {
      b := buckets - 1;
      forall other | 0 <= other < buckets && Begin(other, n, k) <= i < Begin(other + 1, n, k) ensures other == b {
        if other + 1 <= buckets - 1 {
          BeginsGrow(other + 1, buckets - 1, n, k);
        }
      }
    }
  }

  lemma {:induction false} BeginsGrow(a: nat, b: nat, n: nat, k: nat)
    requires 1 <= k <= n && a <= b <= k
    ensures Begin(a, n, k) <= Begin(b, n, k)
    decreases b - a
  {
    if a < b {
      BucketsPartition(a, n, k);
      BeginsGrow(a + 1, b, n, k);
    }
  }

  // ---- The cached form ----

  type Byte = b: int | 0 <= b < 256

  const CACHE_MAGIC: seq<Byte> := [78, 65, 80, 87, 50]

  datatype Cached = Cached(peaks: seq<Byte>, rms: seq<Byte>)

  function Encode(w: Cached): seq<Byte> {
    CACHE_MAGIC + CountBytes(|w.peaks|) + w.peaks + w.rms
  }

  /** The low sixteen bits of a count, the low byte first. */
  function CountBytes(n: nat): seq<Byte> { [Low(n), High(n)] }

  function Low(n: nat): Byte { n % 256 }

  function High(n: nat): Byte { n / 256 % 256 }

  function CountOf(low: Byte, high: Byte): nat { low + 256 * Int(high) }

  function Int(b: Byte): int { b }

  lemma CountIsRead(n: nat)
    ensures CountOf(Low(n), High(n)) == n % 65536
  {
    var m := n / 256;
    assert n == m * 256 + n % 256 && m == m / 256 * 256 + m % 256;
    QuotientIs(n, 65536, m / 256, m % 256 * 256 + n % 256);
  }

  lemma CountIsExact(low: Byte, high: Byte)
    ensures Low(CountOf(low, high)) == low && High(CountOf(low, high)) == high && CountOf(low, high) < 65536
  {
    QuotientIs(CountOf(low, high), 256, Int(high), Int(low));
    QuotientIs(Int(high), 256, 0, Int(high));
  }

  function Decode(bytes: seq<Byte>): Option<Cached> {
    if CACHE_MAGIC <= bytes then DecodeBody(bytes[|CACHE_MAGIC|..]) else None
  }

  function DecodeBody(body: seq<Byte>): Option<Cached> {
    if |body| < 2 then None
    else
      var count, data := CountOf(body[0], body[1]), body[2..];
      if count == 0 || |data| != count * 2 then None else Some(Cached(data[..count], data[count..]))
  }

  lemma MagicStripped(body: seq<Byte>)
    ensures CACHE_MAGIC <= CACHE_MAGIC + body && (CACHE_MAGIC + body)[|CACHE_MAGIC|..] == body
  {
  }

  /** A count that wraps never matches the data. */
  lemma CountMatches(n: nat, m: nat)
    ensures n % 65536 != 0 && n + m == n % 65536 * 2 ==> n < 65536 && m == n
    ensures 0 < n < 65536 ==> n % 65536 == n
  {
    var wraps := n / 65536;
    assert n == wraps * 65536 + n % 65536;
    if wraps >= 1 {
      assert n >= 65536 > n % 65536;
    }
  }

  /** A waveform is read back from the cache exactly when it has at least one bucket, fewer than 65536, and as many of
      either kind. */
  lemma RoundTrip(w: Cached)
    ensures Decode(Encode(w)) == Some(w) <==> 0 < |w.peaks| < 65536 && |w.rms| == |w.peaks|
  {
    var data := w.peaks + w.rms;
    var body := CountBytes(|w.peaks|) + data;
    assert Encode(w) == CACHE_MAGIC + body;
    MagicStripped(body);
    assert Decode(Encode(w)) == DecodeBody(body);
    assert body[2..] == data && body[0] == Low(|w.peaks|) && body[1] == High(|w.peaks|);
    CountIsRead(|w.peaks|);
    CountMatches(|w.peaks|, |w.rms|);
    hide *;
    var count := |w.peaks| % 65536;
    BodyRead(body);
    if 0 < |w.peaks| < 65536 && |w.rms| == |w.peaks| {
      assert data[..count] == w.peaks && data[count..] == w.rms;
    }
  }

  /** The waveform of an analysis, in bytes: what a peak and what a mean square is as a byte is left open. It is read
      back from the cache unless there was nothing to analyze. */
  method ReduceToBytes(chunks: seq<ChunkStats>, peakByte: nat -> Byte, rmsByte: (nat, nat) -> Byte) returns (w: Cached)
    ensures |w.peaks| == |w.rms| == Buckets(|chunks|)
    ensures forall b :: 0 <= b < |w.peaks| ==>
      && w.peaks[b] == peakByte(Peak(BucketOf(chunks, b)))
      && w.rms[b] == rmsByte(SquareSum(BucketOf(chunks, b)), Samples(BucketOf(chunks, b)))
    ensures Decode(Encode(w)) == Some(w) <==> chunks != []
  {
    hide Encode, Decode, BucketOf;
    var buckets := Reduce(chunks);
    w := Cached(seq(|buckets|, b requires 0 <= b < |buckets| => peakByte(buckets[b].peak)),
                seq(|buckets|, b requires 0 <= b < |buckets| => rmsByte(buckets[b].squareSum, buckets[b].samples)));
    RoundTrip(w);
  }

  lemma BodyRead(body: seq<Byte>)
    requires |body| >= 2
    ensures var count := CountOf(body[0], body[1]);
            var data := body[2..];
            if count != 0 && |data| == count * 2 then DecodeBody(body) == Some(Cached(data[..count], data[count..]))
            else DecodeBody(body) == None
  {
  }

  /** The bytes of a waveform: five of the format's name and version, the count with its low byte first, the peaks, and
      the loudness values. */
  lemma Layout(w: Cached)
    requires |w.peaks| < 65536
    ensures var bytes := Encode(w);
            && |bytes| == 7 + |w.peaks| + |w.rms|
            && bytes[..5] == [78, 65, 80, 87, 50] && bytes[5] + 256 * Int(bytes[6]) == |w.peaks|
            && bytes[7..7 + |w.peaks|] == w.peaks && bytes[7 + |w.peaks|..] == w.rms
  {
    CountIsRead(|w.peaks|);
    QuotientIs(|w.peaks|, 65536, 0, |w.peaks|);
    var head := CACHE_MAGIC + CountBytes(|w.peaks|);
    assert |head| == 7 && Encode(w) == head + w.peaks + w.rms;
    assert Encode(w)[..5] == CACHE_MAGIC;
  }

  /** What is read is exactly what was written: only its own encoding is read as a waveform. */
  lemma DecodingIsExact(bytes: seq<Byte>, w: Cached)
    requires Decode(bytes) == Some(w)
    ensures Encode(w) == bytes && 0 < |w.peaks| < 65536 && |w.rms| == |w.peaks|
  {
    var body := bytes[|CACHE_MAGIC|..];
    assert bytes == CACHE_MAGIC + body;
    assert Encode(w) == CACHE_MAGIC + ([Low(|w.peaks|), High(|w.peaks|)] + (w.peaks + w.rms));
    assert DecodeBody(body) == Some(w) && |body| >= 2;
    CountIsExact(body[0], body[1]);
    hide *;
    BodyRead(body);
    var count, data := CountOf(body[0], body[1]), body[2..];
    assert data == data[..count] + data[count..];
    assert body == [body[0], body[1]] + data;
  }
}
