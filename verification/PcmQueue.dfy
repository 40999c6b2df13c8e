/** The ring of samples that decoding fills and the output drains, as the interleaved atomic steps of
    its two ends: the producer reads the vacancy, pushes and waits for room; the consumer
    pops, reads the occupancy and wakes the producer. */
module PcmQueue {
  import opened Arithmetic

  type Sample = int

  /** How many frames the ring holds, and how many samples make a frame. */
  datatype Shape = Shape(frames: nat, channels: nat) {
    function Capacity(): nat { frames * channels }

    ghost predicate Valid() { frames >= 1 && channels >= 1 }
  }

  /** A queue is low below half its capacity. */
  predicate Below(shape: Shape, occupied: nat) {
    occupied * 2 < shape.Capacity()
  }

  /** The samples one push writes: whole frames, as many as fit. */
  function Writable(shape: Shape, vacant: nat, offered: nat): (w: nat)
    requires shape.Valid()
    ensures w <= vacant && w <= offered && w % shape.channels == 0
    ensures w == 0 ==> vacant < shape.channels || offered < shape.channels
    ensures vacant < w + shape.channels || offered < w + shape.channels
  {
    var complete := RoundDown(offered, shape.channels);
    RoundDown(Smaller(vacant, complete), shape.channels)
  }

  // ---- The two ends and the canceller, one atomic step at a time ----

  datatype Producer =
    /** Between two `write_all` calls. */
    | Idle
    /** At the loop's head, with `offset` samples written. */
    | Loop(samples: seq<Sample>, offset: nat)
    | Checking(samples: seq<Sample>, offset: nat)
    /** Not cancelled when it looked; about to read the vacancy. */
    | Pushing(samples: seq<Sample>, offset: nat)
    /** About to push `writable` samples. */
    | Storing(samples: seq<Sample>, offset: nat, writable: nat)
    /** Blocked until a wake. */
    | Waiting(samples: seq<Sample>, offset: nat)
    | Stopped
    | Finished

  datatype Consumer =
    | Free
    /** Popped that many; about to read the occupancy. */
    | Popped(popped: nat)
    | Waking
    /** Saw the end-of-stream flag; about to look whether the ring is empty. */
    | SawFinished

  datatype Canceller = Unasked | Cancelled | Woken

  datatype State = State(
    ring: seq<Sample>,
    wake: bool,
    finished: bool,
    producer: Producer,
    consumer: Consumer,
    canceller: Canceller,
    // What has passed through, and whether the consumer has reported the end.
    written: seq<Sample>,
    played: seq<Sample>,
    declared: bool)

  datatype Step =
    | Begin(samples: seq<Sample>)
    | TestOffset
    | TestCancelled
    | ReadVacancy
    | Store
    | Receive
    | Finish
    | Pop(room: nat)
    | ReadOccupied
    | Send
    | TestFinished
    | TestEmpty
    | Cancel
    | Wake

  function Init(): State {
    State([], false, false, Idle, Free, Unasked, [], [], false)
  }

  ghost predicate Enabled(shape: Shape, s: State, step: Step)
    requires shape.Valid()
  {
    match step
    case Begin(samples) => s.producer.Idle? && |samples| % shape.channels == 0
    case TestOffset => s.producer.Loop?
    case TestCancelled => s.producer.Checking?
    case ReadVacancy => s.producer.Pushing? && s.producer.offset <= |s.producer.samples| && |s.ring| <= shape.Capacity()
    case Store => s.producer.Storing? && s.producer.offset + s.producer.writable <= |s.producer.samples|
    case Receive => s.producer.Waiting? && s.wake
    case Finish => s.producer.Idle?
    case Pop(_) => s.consumer.Free?
    case ReadOccupied => s.consumer.Popped?
    case Send => s.consumer.Waking?
    case TestFinished => s.consumer.Free?
    case TestEmpty => s.consumer.SawFinished?
    case Cancel => s.canceller.Unasked?
    case Wake => s.canceller.Cancelled?
  }

  function After(shape: Shape, s: State, step: Step): State
    requires shape.Valid() && Enabled(shape, s, step)
  {
    match step
    case Begin(samples) => s.(producer := Loop(samples, 0))
    case TestOffset =>
      var p := s.producer;
      s.(producer := if p.offset < |p.samples| then Checking(p.samples, p.offset) else Idle)
    case TestCancelled =>
      var p := s.producer;
      s.(producer := if s.canceller.Unasked? then Pushing(p.samples, p.offset) else Stopped)
    case ReadVacancy =>
      var p := s.producer;
      var vacant := shape.Capacity() - |s.ring|;
      s.(producer := Storing(p.samples, p.offset, Writable(shape, vacant, |p.samples| - p.offset)))
    case Store =>
      var p := s.producer;
      var pushed := p.samples[p.offset..p.offset + p.writable];
      s.(ring := s.ring + pushed,
         written := s.written + pushed,
         producer := if p.writable == 0 then Waiting(p.samples, p.offset) else Loop(p.samples, p.offset + p.writable))
    case Receive => s.(wake := false, producer := Loop(s.producer.samples, s.producer.offset))
    case Finish => s.(finished := true, producer := Finished)
    case Pop(room) =>
      var popped := Smaller(room, |s.ring|);
      s.(ring := s.ring[popped..],
         played := s.played + s.ring[..popped],
         consumer := if popped > 0 then Popped(popped) else Free)
    case ReadOccupied =>
      var after := |s.ring|;
      var before := after + s.consumer.popped;
      s.(consumer := if Below(shape, after) && !Below(shape, before) then Waking else Free)
    case Send => s.(wake := true, consumer := Free)
    case TestFinished => s.(consumer := if s.finished then SawFinished else Free)
    case TestEmpty => s.(declared := s.declared || s.ring == [], consumer := Free)
    case Cancel => s.(canceller := Cancelled)
    case Wake => s.(canceller := Woken, wake := true)
  }

  /** `steps` can be taken one after another. */
  ghost predicate CanRun(shape: Shape, s: State, steps: seq<Step>)
    requires shape.Valid()
    decreases |steps|
  {
    steps == [] || (Enabled(shape, s, steps[0]) && CanRun(shape, After(shape, s, steps[0]), steps[1..]))
  }

  ghost function Run(shape: Shape, s: State, steps: seq<Step>): State
    requires shape.Valid() && CanRun(shape, s, steps)
    decreases |steps|
  {
    if steps == [] then s else Run(shape, After(shape, s, steps[0]), steps[1..])
  }

  // ---- What every interleaving keeps ----

  /** Samples leave in the order they came, in whole frames, and none after the end is reported. */
  ghost predicate Conserved(shape: Shape, s: State)
    requires shape.Valid()
  {
    && s.written == s.played + s.ring
    && |s.written| % shape.channels == 0
    && |s.ring| <= shape.Capacity()
    && (s.finished <==> s.producer.Finished?)
    && (s.consumer.SawFinished? ==> s.finished)
    && (s.declared ==> s.finished && s.ring == [])
  }

  ghost predicate ProducerAligned(shape: Shape, s: State)
    requires shape.Valid()
  {
    match s.producer
    case Loop(samples, offset) => offset <= |samples| && |samples| % shape.channels == 0 && offset % shape.channels == 0
    case Checking(samples, offset) => offset < |samples| && |samples| % shape.channels == 0
        && offset % shape.channels == 0
    case Pushing(samples, offset) => offset < |samples| && |samples| % shape.channels == 0
        && offset % shape.channels == 0
    case Storing(samples, offset, writable) =>
      && offset < |samples| && offset + writable <= |samples| && |samples| % shape.channels == 0
          && offset % shape.channels == 0
      && writable % shape.channels == 0 && |s.ring| + writable <= shape.Capacity()
    case Waiting(samples, offset) => offset < |samples| && |samples| % shape.channels == 0
        && offset % shape.channels == 0
    case _ => true
  }

  /** The producer will wait before it looks at the ring again. */
  ghost predicate Committed(s: State) {
    s.producer.Waiting? || (s.producer.Storing? && s.producer.writable == 0)
  }

  /** What a producer that will wait can count on: a wake, a ring that is not low, or a consumer that
      is about to notice it took the ring low. */
  ghost predicate Covered(shape: Shape, s: State) {
    || s.wake
    || !Below(shape, |s.ring|)
    || (s.consumer.Popped? && !Below(shape, |s.ring| + s.consumer.popped))
    || s.consumer.Waking?
  }

  ghost predicate WakeKept(s: State) {
    s.canceller.Woken? && (s.producer.Pushing? || s.producer.Storing? || s.producer.Waiting?) ==> s.wake
  }

  /** With two frames of room, or frames of at most two samples, a ring a frame does not fit into is
      at least half full. */
  predicate RoomForWakes(shape: Shape) {
    shape.frames >= 2 || shape.channels <= 2
  }

  ghost predicate Inv(shape: Shape, s: State)
    requires shape.Valid()
  {
    && Conserved(shape, s)
    && ProducerAligned(shape, s)
    && WakeKept(s)
    && (RoomForWakes(shape) && Committed(s) ==> Covered(shape, s))
  }

  lemma AlignedRest(offset: nat, total: nat, unit: nat)
    requires unit >= 1 && offset < total && offset % unit == 0 && total % unit == 0
    ensures total - offset >= unit
  {
    AlignedSum(total, offset, unit);
    RoundedDown(total - offset, unit);
  }

  lemma FullIsNotLow(shape: Shape, occupied: nat)
    requires shape.Valid() && RoomForWakes(shape)
    requires occupied <= shape.Capacity() && shape.Capacity() - occupied < shape.channels
    ensures !Below(shape, occupied)
  {
    if shape.frames >= 2 {
      assert shape.Capacity() >= 2 * shape.channels;
    }
  }

  lemma StoreConserves(shape: Shape, s: State)
    requires shape.Valid() && Conserved(shape, s) && ProducerAligned(shape, s) && Enabled(shape, s, Store)
    ensures Conserved(shape, After(shape, s, Store))
  {
    hide Shape.Capacity;
    AlignedSum(|s.written|, s.producer.writable, shape.channels);
  }

  lemma PopConserves(shape: Shape, s: State, room: nat)
    requires shape.Valid() && Conserved(shape, s) && Enabled(shape, s, Pop(room))
    ensures Conserved(shape, After(shape, s, Pop(room)))
  {
    hide Shape.Capacity;
    var popped := Smaller(room, |s.ring|);
    assert s.ring == s.ring[..popped] + s.ring[popped..];
  }

  lemma ConservedKept(shape: Shape, s: State, step: Step)
    requires shape.Valid() && Conserved(shape, s) && ProducerAligned(shape, s) && Enabled(shape, s, step)
    ensures Conserved(shape, After(shape, s, step))
  {
    hide Writable, Below, Shape.Capacity;
    if step.Store? {
      StoreConserves(shape, s);
    } else if step.Pop? {
      PopConserves(shape, s, step.room);
    } else {
      assert After(shape, s, step).written == s.written && After(shape, s, step).ring == s.ring;
    }
  }

  lemma ProducerAlignedKept(shape: Shape, s: State, step: Step)
    requires shape.Valid() && Conserved(shape, s) && ProducerAligned(shape, s) && Enabled(shape, s, step)
    ensures ProducerAligned(shape, After(shape, s, step))
  {
    hide Writable, Below;
    match step
    case Begin(samples) => RoundedDown(0, shape.channels);
    case Store => AlignedSum(s.producer.offset, s.producer.writable, shape.channels);
    case _ =>
  }

  lemma CoveredKept(shape: Shape, s: State, step: Step)
    requires shape.Valid() && Conserved(shape, s) && ProducerAligned(shape, s) && Enabled(shape, s, step)
    requires RoomForWakes(shape) && (Committed(s) ==> Covered(shape, s))
    ensures Committed(After(shape, s, step)) ==> Covered(shape, After(shape, s, step))
  {
    hide Writable, RoomForWakes;
    if step.ReadVacancy? {
      AlignedRest(s.producer.offset, |s.producer.samples|, shape.channels);
      if After(shape, s, step).producer.writable == 0 {
        FullIsNotLow(shape, |s.ring|);
      }
    }
  }

  lemma InvKept(shape: Shape, s: State, step: Step)
    requires shape.Valid() && Inv(shape, s) && Enabled(shape, s, step)
    ensures Inv(shape, After(shape, s, step))
  {
    hide Conserved, ProducerAligned, Covered, Writable, Below, RoomForWakes;
    ConservedKept(shape, s, step);
    ProducerAlignedKept(shape, s, step);
    if RoomForWakes(shape) {
      CoveredKept(shape, s, step);
    }
  }

  lemma {:induction false} InvAlong(shape: Shape, s: State, steps: seq<Step>)
    requires shape.Valid() && Inv(shape, s) && CanRun(shape, s, steps)
    ensures Inv(shape, Run(shape, s, steps))
    decreases |steps|
  {
    if steps != [] {
      InvKept(shape, s, steps[0]);
      InvAlong(shape, After(shape, s, steps[0]), steps[1..]);
    }
  }

  ghost predicate Reachable(shape: Shape, s: State)
    requires shape.Valid()
  {
    exists steps :: CanRun(shape, Init(), steps) && Run(shape, Init(), steps) == s
  }

  lemma ReachableIsInv(shape: Shape, s: State)
    requires shape.Valid() && Reachable(shape, s)
    ensures Inv(shape, s)
  {
    var steps :| CanRun(shape, Init(), steps) && Run(shape, Init(), steps) == s;
    InvAlong(shape, Init(), steps);
  }

  // ---- No lost wake-up ----

  /** Asleep for good: no wake is pending, the consumer owes none, and nothing is left to pop. */
  ghost predicate AsleepOverDrained(s: State) {
    s.producer.Waiting? && !s.wake && s.ring == [] && s.consumer.Free?
  }

  /** A pop that read the occupancy goes on to wake the producer exactly if it took the ring from half full or more to
      less than half. */
  lemma WakesOnCrossing(shape: Shape, s: State)
    requires shape.Valid() && Enabled(shape, s, ReadOccupied)
    ensures After(shape, s, ReadOccupied).consumer.Waking?
       <==> 2 * |s.ring| < shape.frames * shape.channels <= 2 * (|s.ring| + s.consumer.popped)
  {
  }

  /** A producer without a pending wake sleeps only while the ring is at least half full, or the
      consumer is between taking it low and sending the wake. */
  lemma SleepsOnlyOverHalfFull(shape: Shape, s: State)
    requires shape.Valid() && RoomForWakes(shape) && Reachable(shape, s)
    requires s.producer.Waiting? && !s.wake
    ensures || shape.Capacity() <= 2 * |s.ring|
            || s.consumer.Waking?
            || (s.consumer.Popped? && After(shape, s, ReadOccupied).consumer.Waking?)
  {
    ReachableIsInv(shape, s);
  }

  lemma {:induction false} RunOneMore(shape: Shape, s: State, steps: seq<Step>, step: Step)
    requires shape.Valid() && CanRun(shape, s, steps) && Enabled(shape, Run(shape, s, steps), step)
    ensures CanRun(shape, s, steps + [step])
    ensures Run(shape, s, steps + [step]) == After(shape, Run(shape, s, steps), step)
    decreases |steps|
  {
    if steps == [] {
      assert steps + [step] == [step];
      assert CanRun(shape, After(shape, s, step), []);
    } else {
      RunOneMore(shape, After(shape, s, steps[0]), steps[1..], step);
      assert (steps + [step])[1..] == steps[1..] + [step];
    }
  }

  lemma Reach(shape: Shape, s: State, step: Step) returns (t: State)
    requires shape.Valid() && Reachable(shape, s) && Enabled(shape, s, step)
    ensures t == After(shape, s, step) && Reachable(shape, t)
  {
    var steps :| CanRun(shape, Init(), steps) && Run(shape, Init(), steps) == s;
    RunOneMore(shape, Init(), steps, step);
    t := After(shape, s, step);
  }

  lemma OneFrameFits(channels: nat)
    requires channels >= 1
    ensures Writable(Shape(1, channels), channels, 2 * channels) == channels
    ensures Writable(Shape(1, channels), channels - 1, channels) == 0
  {
    MultipleIs(2, channels);
    MultipleIs(1, channels);
  }

  /** The producer gets to the point where it pushes what fits, or waits. */
  lemma TriesToWrite(shape: Shape, before: State) returns (s: State)
    requires shape.Valid() && Reachable(shape, before) && before.producer.Loop? && before.canceller.Unasked?
    requires before.producer.offset < |before.producer.samples| && |before.ring| <= shape.Capacity()
    ensures Reachable(shape, s)
    ensures s == before.(producer := Storing(before.producer.samples, before.producer.offset,
                           Writable(shape, shape.Capacity() - |before.ring|,
                                    |before.producer.samples| - before.producer.offset)))
  {
    hide Reachable, Writable;
    s := Reach(shape, before, TestOffset);
    s := Reach(shape, s, TestCancelled);
    s := Reach(shape, s, ReadVacancy);
  }

  /** A one-frame ring is full, and the producer is about to write the other frame. */
  lemma OneFrameWritten(channels: nat, two: seq<Sample>) returns (s: State)
    requires channels >= 3 && |two| == 2 * channels
    ensures Reachable(Shape(1, channels), s)
    ensures |s.ring| == channels && s.producer == Loop(two, channels) && s.consumer.Free? && s.canceller.Unasked?
  {
    hide Reachable, Writable;
    var shape := Shape(1, channels);
    MultipleIs(2, channels);
    OneFrameFits(channels);
    StartsReachable(shape);
    s := Reach(shape, Init(), Begin(two));
    s := TriesToWrite(shape, s);
    s := Reach(shape, s, Store);
  }

  lemma StartsReachable(shape: Shape)
    requires shape.Valid()
    ensures Reachable(shape, Init())
  {
    assert CanRun(shape, Init(), []) && Run(shape, Init(), []) == Init();
  }

  /** The state in which a one-frame ring holds one sample of a frame and a wake is pending. */
  lemma OneSampleLeft(channels: nat, two: seq<Sample>) returns (s: State)
    requires channels >= 3 && |two| == 2 * channels
    ensures Reachable(Shape(1, channels), s)
    ensures |s.ring| == 1 && s.wake && s.producer == Loop(two, channels) && s.consumer.Free? && s.canceller.Unasked?
  {
    hide Reachable, Writable;
    var shape := Shape(1, channels);
    s := OneFrameWritten(channels, two);
    s := Reach(shape, s, Pop(channels - 1));
    s := Reach(shape, s, ReadOccupied);
    s := Reach(shape, s, Send);
  }

  /** A one-frame ring of three or more channels can put its producer to sleep for good: the ring
      counts as low while a frame still does not fit. */
  lemma OneFrameLosesTheWake(channels: nat) returns (s: State)
    requires channels >= 3
    ensures Reachable(Shape(1, channels), s) && AsleepOverDrained(s)
  {
    hide Reachable, Writable;
    var shape := Shape(1, channels);
    OneFrameFits(channels);
    s := OneSampleLeft(channels, seq(2 * channels, i => 0));
    s := TriesToWrite(shape, s);
    s := Reach(shape, s, Store);
    s := Reach(shape, s, Receive);
    s := TriesToWrite(shape, s);
    s := Reach(shape, s, Store);
    s := Reach(shape, s, Pop(1));
    s := Reach(shape, s, ReadOccupied);
  }

  /** No interleaving ever loses the wake exactly when the ring has two frames of room or frames have
      at most two samples. */
  lemma NoLostWakeUp(shape: Shape)
    requires shape.Valid()
    ensures (forall s :: Reachable(shape, s) ==> !AsleepOverDrained(s)) <==> RoomForWakes(shape)
  {
    if RoomForWakes(shape) {
      forall s | Reachable(shape, s) ensures !AsleepOverDrained(s) {
        ReachableIsInv(shape, s);
        assert shape.Capacity() >= 1;
      }
    } else {
      var s := OneFrameLosesTheWake(shape.channels);
      assert shape == Shape(1, shape.channels);
    }
  }

  /** The queue the output opens: two seconds of frames, and at least one. */
  function TwoSeconds(sampleRate: nat): (frames: nat)
    ensures frames >= 1
  {
    if sampleRate * 2 >= 1 then sampleRate * 2 else 1
  }

  /** Every queue of a device that has a sample rate keeps its wakes. */
  lemma OutputQueuesKeepTheirWakes(sampleRate: nat, channels: nat, s: State)
    requires sampleRate >= 1 && channels >= 1
    requires Reachable(Shape(TwoSeconds(sampleRate), channels), s)
    ensures TwoSeconds(sampleRate) == sampleRate + sampleRate && !AsleepOverDrained(s)
  {
    NoLostWakeUp(Shape(TwoSeconds(sampleRate), channels));
  }

  // ---- The end ----

  /** The consumer's own steps, at most, until it declares the end of a stream that is finished. */
  function ToTheEnd(s: State): nat {
    if s.declared then 0
    else if s.ring == [] then
      match s.consumer
      case SawFinished => 1
      case Free => 2
      case Waking => 3
      case Popped(_) => 4
    else
      match s.consumer
      case Free => 5
      case SawFinished => 6
      case Waking => 6
      case Popped(_) => 7
  }

  function TowardsTheEnd(s: State): Step {
    match s.consumer
    case Free => if s.ring == [] then TestFinished else Pop(|s.ring|)
    case SawFinished => TestEmpty
    case Waking => Send
    case Popped(_) => ReadOccupied
  }

  /** Once the producer has finished, the consumer plays all that is left and declares the end, within a bounded number
      of its own steps. */
  lemma EndIsReached(shape: Shape, s: State) returns (steps: seq<Step>)
    requires shape.Valid() && Inv(shape, s) && s.finished
    ensures |steps| <= ToTheEnd(s) <= 7 && CanRun(shape, s, steps)
    ensures Run(shape, s, steps).declared && Run(shape, s, steps).played == s.written
    decreases ToTheEnd(s)
  {
    if s.declared {
      return [];
    }
    var step := TowardsTheEnd(s);
    InvKept(shape, s, step);
    var rest := EndIsReached(shape, After(shape, s, step));
    steps := [step] + rest;
    assert steps[1..] == rest;
  }

  // ---- Cancelling ----

  predicate ProducerStep(step: Step) {
    step.Begin? || step.TestOffset? || step.TestCancelled? || step.ReadVacancy? || step.Store? || step.Receive?
        || step.Finish?
  }

  /** The producer's own steps left before `write_all` returns, once it is cancelled. */
  function Remaining(p: Producer): nat {
    match p
    case Pushing(_, _) => 6
    case Storing(_, _, _) => 5
    case Waiting(_, _) => 4
    case Loop(_, _) => 3
    case Checking(_, _) => 2
    case _ => 0
  }

  predicate InWriteAll(p: Producer) {
    p.Loop? || p.Checking? || p.Pushing? || p.Storing? || p.Waiting?
  }

  /** After a cancel and its wake, `write_all` is never blocked and returns within six steps of its
      own: cancelled, unless it had already written everything. */
  lemma CancelledWriteReturns(shape: Shape, s: State)
    requires shape.Valid() && Reachable(shape, s)
    requires s.canceller.Woken? && InWriteAll(s.producer)
    ensures exists step :: ProducerStep(step) && Enabled(shape, s, step)
    ensures forall step :: ProducerStep(step) && Enabled(shape, s, step) ==>
      && Remaining(After(shape, s, step).producer) < Remaining(s.producer)
      && (!InWriteAll(After(shape, s, step).producer) ==>
            After(shape, s, step).producer.Stopped? || (s.producer.Loop? && s.producer.offset == |s.producer.samples|))
  {
    ReachableIsInv(shape, s);
    var next := match s.producer
      case Loop(_, _) => TestOffset
      case Checking(_, _) => TestCancelled
      case Pushing(_, _) => ReadVacancy
      case Storing(_, _, _) => Store
      case _ => Receive;
    assert ProducerStep(next) && Enabled(shape, s, next);
  }

  /** A cancel is made once and leaves a wake behind. */
  lemma CancelWakes(shape: Shape, s: State)
    requires shape.Valid() && Enabled(shape, s, Cancel)
    ensures Run(shape, s, [Cancel, Wake]) == s.(canceller := Woken, wake := true)
    ensures !Enabled(shape, After(shape, s, Cancel), Cancel) && !Enabled(shape, Run(shape, s, [Cancel, Wake]), Wake)
  {
  }

  // ---- What the consumer hears ----

  /** What was played is what was written, in order, and the rest is in the ring; writes are whole
      frames; and once the consumer has seen the end, everything written has been played. */
  lemma NothingLostOrInvented(shape: Shape, s: State)
    requires shape.Valid() && Reachable(shape, s)
    ensures s.written == s.played + s.ring && |s.ring| <= shape.Capacity()
    ensures |s.written| % shape.channels == 0
    ensures s.declared ==> s.finished && s.played == s.written
  {
    ReachableIsInv(shape, s);
  }

  /** Once the end is reported nothing more is ever played or written. */
  lemma {:induction false} DeclaredIsFinal(shape: Shape, s: State, steps: seq<Step>)
    requires shape.Valid() && Inv(shape, s) && s.declared && CanRun(shape, s, steps)
    ensures Run(shape, s, steps).written == s.written && Run(shape, s, steps).played == s.played
    decreases |steps|
  {
    if steps != [] {
      InvKept(shape, s, steps[0]);
      var t := After(shape, s, steps[0]);
      assert t.declared && t.written == s.written && t.played == s.played;
      DeclaredIsFinal(shape, t, steps[1..]);
    }
  }
}
