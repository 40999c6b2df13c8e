/** How meter measurements become sent frames: two to a frame, and nothing is sent for silence that goes on. */
module FrameBatching {
  import opened Options

  const MEASUREMENTS_PER_FRAME: nat := 2

  /** The frames of `measurements` taken two at a time; a last single one waits. */
  function Combined<F>(combine: (F, F) -> F, measurements: seq<F>): seq<F>
    decreases |measurements|
  {
    if |measurements| < MEASUREMENTS_PER_FRAME then []
    else [combine(measurements[0], measurements[1])] + Combined(combine, measurements[2..])
  }

  lemma {:induction false} CombinedMore<F>(combine: (F, F) -> F, measurements: seq<F>, a: F, b: F)
    requires |measurements| % MEASUREMENTS_PER_FRAME == 0
    ensures Combined(combine, measurements + [a, b]) == Combined(combine, measurements) + [combine(a, b)]
    decreases |measurements|
  {
    if measurements == [] {
      assert ([] + [a, b])[2..] == [];
      assert Combined(combine, []) == [];
    } else {
      var more := measurements + [a, b];
      assert more[0] == measurements[0] && more[1] == measurements[1] && more[2..] == measurements[2..] + [a, b];
      CombinedMore(combine, measurements[2..], a, b);
    }
  }

  /** Frame `i` is made of two measurements in a row, and none of them is left out but a single last one. */
  lemma {:induction false} CombinedAt<F>(combine: (F, F) -> F, measurements: seq<F>, i: nat)
    requires |measurements| % 2 == 0
    ensures |Combined(combine, measurements)| * 2 == |measurements|
    ensures 2 * i + 1 < |measurements| ==>
              Combined(combine, measurements)[i] == combine(measurements[2 * i], measurements[2 * i + 1])
    decreases |measurements|
  {
    if measurements != [] {
      CombinedAt(combine, measurements[2..], if i > 0 then i - 1 else 0);
    }
  }

  /** The newest frame, or silence before the first. */
  function Newest<F>(frames: seq<F>, silent: F): F {
    if frames == [] then silent else frames[|frames| - 1]
  }

  class Batcher<!F(==)> {
    const combine: (F, F) -> F
    const silent: F
    var pending: seq<F>
    var lastSentSilent: bool
    /** What was measured, and what the Renderer shows: the last frame sent, or silence. */
    ghost var measured: seq<F>
    ghost var shown: F

    /** The Renderer shows the newest frame, whether it was sent or held back. */
    ghost predicate Valid()
      reads this
    {
      && |pending| < MEASUREMENTS_PER_FRAME && |pending| <= |measured|
      && (|measured| - |pending|) % MEASUREMENTS_PER_FRAME == 0
      && measured[|measured| - |pending|..] == pending
      && shown == Newest(Combined(combine, measured[..|measured| - |pending|]), silent)
      && (lastSentSilent <==> shown == silent)
    }

    constructor (combine: (F, F) -> F, silent: F)
      ensures Valid() && measured == [] && shown == silent && this.combine == combine && this.silent == silent
    {
      this.combine, this.silent := combine, silent;
      pending, lastSentSilent := [], true;
      measured, shown := [], silent;
    }

    /** Every second measurement makes a frame with the one before it. It is returned unless it and the frame shown
        are both silent. */
    method Push(measurement: F) returns (frame: Option<F>)
      requires Valid()
      modifies this
      ensures Valid() && measured == old(measured) + [measurement]
      ensures shown == if frame.Some? then frame.value else old(shown)
      ensures |measured| % MEASUREMENTS_PER_FRAME == 1 ==> frame == None
      ensures |measured| % MEASUREMENTS_PER_FRAME == 0 ==> shown == combine(measured[|measured| - 2], measurement)
      ensures frame.Some? && frame.value == silent ==> old(shown) != silent
    {
      hide Combined;
      ghost var before := measured[..|measured| - |pending|];
      measured := measured + [measurement];
      pending := pending + [measurement];
      if |pending| < MEASUREMENTS_PER_FRAME {
        assert measured[..|measured| - 1] == before;
        return None;
      }
      CombinedMore(combine, before, pending[0], pending[1]);
      assert measured == before + [pending[0], pending[1]];
      var combined := combine(pending[0], pending[1]);
      pending := [];
      assert measured[..|measured|] == measured;
      var isSilent := combined == silent;
      if isSilent && lastSentSilent {
        return None;
      }
      lastSentSilent := isSilent;
      shown := combined;
      frame := Some(combined);
    }
  }
}
