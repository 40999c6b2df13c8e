/** The output stream: the callback that fills the device's buffers, and the stream's side that hands
    queues over and reads positions. Decode threads and the stream's owner act between any two of the
    callback's looks at what they share. */
module Output {
  import opened Arithmetic
  import opened Options
  import opened Slots
  import opened Turns

  datatype Generation = Generation(queue: Queue, pipeline: PipelineId)

  /** A successor, good only while the pipeline it was chained to is the one playing. */
  datatype Chain = Chain(after: PipelineId, next: Generation)

  datatype Completion = Pending | Reported | CompletionTimingFailed

  /** A single-slot handoff: the newest write waits, unread, until the reader swaps it for what it
      holds. */
  datatype Slot<T> = Slot(unread: bool, waiting: Option<T>, held: Option<T>) {
    function Write(value: Option<T>): Slot<T> { Slot(true, value, held) }

    function Update(): Slot<T> { if unread then Slot(false, held, waiting) else this }

    function Offered(): Option<T> { if unread then waiting else None }
  }

  /** A segment is copied in pieces of at most this many samples. */
  const FILL_CHUNK_SAMPLES: nat := 512

  /** The pipelines of turns that are over. */
  ghost function Pipelines(turns: seq<Turn>): set<PipelineId> {
    if turns == [] then {} else Pipelines(turns[..|turns| - 1]) + {turns[|turns| - 1].pipeline}
  }

  lemma {:induction false} PipelineIn(turns: seq<Turn>, i: nat)
    requires i < |turns|
    ensures turns[i].pipeline in Pipelines(turns)
  {
    if i < |turns| - 1 {
      PipelineIn(turns[..|turns| - 1], i);
    }
  }

  lemma DistinctOneMore(turns: seq<Turn>, turn: Turn)
    requires Distinct(turns) && turn.pipeline !in Pipelines(turns)
    ensures Distinct(turns + [turn]) && Pipelines(turns + [turn]) == Pipelines(turns) + {turn.pipeline}
  {
    assert (turns + [turn])[..|turns|] == turns;
    forall i | 0 <= i < |turns| ensures turns[i].pipeline != turn.pipeline {
      PipelineIn(turns, i);
    }
  }

  /** A queue that has not played yet, of a pipeline that has not either. */
  ghost predicate Unplayed(channels: nat, issued: nat, played: set<PipelineId>, g: Generation)
    requires channels >= 1
  {
    Aligned(channels, g.queue) && g.queue.popped == 0 && g.pipeline < issued && g.pipeline !in played
  }

  /** What is handed over are unplayed queues of different pipelines. */
  ghost predicate Apart(channels: nat, issued: nat, played: set<PipelineId>,
                        handoff: Option<Generation>, chain: Option<Chain>, chained: Option<Chain>)
    requires channels >= 1
  {
    && (forall p :: p in played ==> p < issued)
    && (handoff.Some? ==> Unplayed(channels, issued, played, handoff.value))
    && (chain.Some? ==> Unplayed(channels, issued, played, chain.value.next))
    && (chained.Some? ==> Unplayed(channels, issued, played, chained.value.next))
    && (handoff.Some? && chain.Some? ==> handoff.value.pipeline != chain.value.next.pipeline)
    && (handoff.Some? && chained.Some? ==> handoff.value.pipeline != chained.value.next.pipeline)
    && (chain.Some? && chained.Some? ==> chain.value.next.pipeline != chained.value.next.pipeline)
  }

  lemma ApartFromOneMore(channels: nat, issued: nat, played: set<PipelineId>, p: PipelineId,
                         handoff: Option<Generation>, chain: Option<Chain>, chained: Option<Chain>)
    requires channels >= 1 && Apart(channels, issued, played, handoff, chain, chained) && p < issued
    requires handoff.Some? ==> handoff.value.pipeline != p
    requires chain.Some? ==> chain.value.next.pipeline != p
    requires chained.Some? ==> chained.value.next.pipeline != p
    ensures Apart(channels, issued, played + {p}, handoff, chain, chained)
  {
  }

  function Rendered<T>(render: Sample -> T, equilibrium: T, heard: Option<Sample>): T {
    if heard.Some? then render(heard.value) else equilibrium
  }

  ghost predicate Played(channels: nat, turns: seq<Turn>, update: Option<PositionUpdate>) {
    update.Some? ==>
      update.value.startFrame <= update.value.endFrame
          && update.value.endFrame * channels <= PlayedIn(turns, update.value.pipeline)
  }

  /** What the stream reports of its pipeline is not past what that pipeline played. */
  ghost predicate Anchored(channels: nat, turns: seq<Turn>, p: PipelineId, update: Option<PositionUpdate>,
                           lastPlayed: nat) {
    && Played(channels, turns, update)
    && (update.Some? ==> update.value.pipeline == p)
    && lastPlayed * channels <= PlayedIn(turns, p)
  }

  lemma PositionsKept(channels: nat, before: seq<Turn>, after: seq<Turn>, latest: Option<PositionUpdate>,
                      p: PipelineId, update: Option<PositionUpdate>, lastPlayed: nat)
    requires Continues(before, after) && Distinct(after)
    requires Played(channels, before, latest) && Anchored(channels, before, p, update, lastPlayed)
    ensures Played(channels, after, latest) && Anchored(channels, after, p, update, lastPlayed)
  {
    hide Continues, Distinct, PlayedIn;
    PlayedNeverShrinks(before, after, p);
    if latest.Some? {
      PlayedNeverShrinks(before, after, latest.value.pipeline);
    }
    if update.Some? {
      PlayedNeverShrinks(before, after, update.value.pipeline);
    }
  }

  class OutputStream {
    const channels: nat
    const sampleRate: nat
    /** The last time the stream clock can hold. */
    const clockLimit: real

    // The callback's side.
    var queue: Queue
    var pipeline: PipelineId
    var handoff: Slot<Generation>
    var chainSlot: Slot<Chain>
    var chained: Option<Chain>
    var positionFrame: nat
    var lastEndTime: Option<real>
    var completion: Completion
    var latest: Option<PositionUpdate>

    // The stream's side.
    var streamPipeline: PipelineId
    var latestUpdate: Option<PositionUpdate>
    var lastPlayed: nat
    /** The owner numbers pipelines from here on. */
    var issued: nat

    // What has happened: the turns that are over, the cells and report of the one playing, and
    // everything the device was given.
    ghost var past: seq<Turn>
    ghost var cells: seq<Cell>
    ghost var report: Option<Report>
    ghost var device: seq<Option<Sample>>

    ghost function Current(): Turn
      reads this
    {
      Turn(pipeline, queue, cells, report, Playing)
    }

    ghost function Turns(): seq<Turn>
      reads this
    {
      past + [Current()]
    }

    ghost predicate Sized() {
      channels >= 1 && sampleRate >= 1
    }

    ghost predicate TurnsOk()
      requires Sized()
      reads this
    {
      && TurnOk(channels, Current())
      && Truthful(clockLimit, Current())
      && (completion == Pending <==> report == None)
      && TurnsOver(channels, clockLimit, past)
      && device == Device(past) + Heard(queue, cells)
    }

    /** The callback knows when its last sample is heard, unless the clock cannot hold it. */
    ghost predicate TimesOk()
      reads this
    {
      && (LastEnd(cells) == None ==> lastEndTime == None)
      && (lastEndTime.Some? ==> lastEndTime.value <= clockLimit)
      && (LastEnd(cells).Some? && LastEnd(cells).value <= clockLimit ==> lastEndTime == LastEnd(cells))
    }

    /** The pipelines that have played, with the one that does. */
    ghost function Started(): set<PipelineId>
      reads this
    {
      Pipelines(past) + {pipeline}
    }

    ghost predicate SlotsOk()
      requires channels >= 1
      reads this
    {
      && pipeline !in Pipelines(past) && Distinct(past)
      && Apart(channels, issued, Started(), handoff.Offered(), chainSlot.Offered(), chained)
    }

    ghost predicate PositionsOk()
      reads this
    {
      && Played(channels, Turns(), latest)
      && Anchored(channels, Turns(), streamPipeline, latestUpdate, lastPlayed)
    }

    /** What holds between any two calls. */
    ghost predicate Valid()
      reads this
    {
      && Sized() && TurnsOk() && TimesOk() && SlotsOk() && PositionsOk()
      && positionFrame * channels == queue.popped
    }

    constructor (first: Queue, channels: nat, sampleRate: nat, clockLimit: real)
      requires channels >= 1 && sampleRate >= 1 && Aligned(channels, first) && first.popped == 0
      ensures Valid() && device == [] && past == [] && queue == first
      ensures this.channels == channels && this.sampleRate == sampleRate && this.clockLimit == clockLimit
    {
      this.channels, this.sampleRate, this.clockLimit := channels, sampleRate, clockLimit;
      queue, pipeline := first, 0;
      handoff, chainSlot, chained := Slot(false, None, None), Slot(false, None, None), None;
      positionFrame, lastEndTime, completion, latest := 0, None, Pending, None;
      streamPipeline, latestUpdate, lastPlayed := 0, None, 0;
      past, cells, report, device, issued := [], [], None, [], 1;
    }

    // ---- What others do between the callback's steps ----

    /** The decode thread of the playing pipeline pushes whole frames, and may declare the end. */
    method DecodeThreadActs()
      requires Sized() && TurnsOk()
      modifies this`queue
      ensures TurnsOk() && queue.popped == old(queue.popped) && old(queue.pushed) <= queue.pushed
      ensures old(queue.finished) ==> queue == old(queue)
    {
      if !queue.finished {
        var frames: seq<Sample>, ends: bool := *, *;
        if |frames| % channels == 0 {
          ghost var before := queue;
          AlignedSum(|queue.pushed|, |frames|, channels);
          IndicesInBounds(cells);
          queue := Queue(queue.pushed + frames, queue.popped, ends);
          HeardIsStable(before, queue, cells);
        }
      }
    }

    /** Puts a pipeline that has not played yet into the callback's slot, in place of whatever waits there. */
    method WriteHandoff(consumer: Queue, next: PipelineId)
      requires Sized() && SlotsOk() && Aligned(channels, consumer) && consumer.popped == 0 && issued <= next
      modifies this`handoff, this`issued
      ensures SlotsOk() && issued == next + 1
      ensures handoff == old(handoff).Write(Some(Generation(consumer, next)))
    {
      issued := next + 1;
      handoff := handoff.Write(Some(Generation(consumer, next)));
    }

    method WriteChain(after: PipelineId, consumer: Queue, next: PipelineId)
      requires Sized() && SlotsOk() && Aligned(channels, consumer) && consumer.popped == 0 && issued <= next
      modifies this`chainSlot, this`issued
      ensures SlotsOk() && issued == next + 1
      ensures chainSlot == old(chainSlot).Write(Some(Chain(after, Generation(consumer, next))))
    {
      issued := next + 1;
      chainSlot := chainSlot.Write(Some(Chain(after, Generation(consumer, next))));
    }

    method WithdrawChain()
      requires Sized() && SlotsOk()
      modifies this`chainSlot
      ensures SlotsOk() && chainSlot == old(chainSlot).Write(None)
    {
      chainSlot := chainSlot.Write(None);
    }

    /** The stream's owner writes to the slots, any number of times. */
    method OwnerActs()
      requires Sized() && SlotsOk()
      modifies this`handoff, this`chainSlot, this`issued
      ensures SlotsOk()
    {
      var writes: int := *;
      while writes > 0
        invariant SlotsOk()
      {
        writes := writes - 1;
        var pushed: seq<Sample>, ends: bool, after: PipelineId := *, *, *;
        var consumer := Queue(if |pushed| % channels == 0 then pushed else [], 0, ends);
        if * {
          WriteHandoff(consumer, issued);
        } else if * {
          WriteChain(after, consumer, issued);
        } else {
          WithdrawChain();
        }
      }
    }

    // ---- The callback ----

    /** Without an end where the clock has none. */
    function CalculateEndTime(start: real, samples: nat): (end: Option<real>)
      ensures end.Some? ==> end.value <= clockLimit
    {
      if channels == 0 || sampleRate == 0 || samples % channels != 0 then None
      else
        var end := EndAfter(channels, sampleRate, start, samples);
        if end > clockLimit then None else Some(end)
    }

    /** Looks at the end's flag and then at the ring. The producer may act in between, but a yes is
        final: nothing is left, and nothing will come. */
    method IsFinished() returns (over: bool)
      requires Sized() && TurnsOk()
      modifies this`queue
      ensures TurnsOk() && queue.popped == old(queue.popped) && old(queue.pushed) <= queue.pushed
      ensures old(queue.finished) ==> queue == old(queue)
      ensures over ==> queue.Ended()
      ensures old(queue.Ended()) ==> over
    {
      DecodeThreadActs();
      var flag := queue.finished;
      DecodeThreadActs();
      over := flag && queue.Drained();
    }

    lemma ThisTurnMayEnd(ending: Ending)
      requires Sized() && TurnsOk() && (ending == Followed ==> report.Some?)
      ensures TurnOk(channels, Current().(ending := ending)) && Truthful(clockLimit, Current().(ending := ending))
    {
    }

    lemma NoEndYet()
      ensures LastEnd([]) == None
    {
    }

    lemma MayPlay(next: Generation)
      requires channels >= 1 && Unplayed(channels, issued, Started(), next)
      ensures Aligned(channels, next.queue) && next.queue.popped == 0 && next.pipeline < issued
        && next.pipeline !in Started()
    {
    }

    /** Ends the turn of the playing pipeline and begins that of `next`. */
    method PlayNext(next: Generation, ghost ending: Ending)
      requires Sized() && TurnsOk() && SlotsOk() && Unplayed(channels, issued, Started(), next)
      requires ending == Followed ==> report.Some?
      requires handoff.Offered().Some? ==> handoff.waiting.value.pipeline != next.pipeline
      requires chainSlot.Offered().Some? ==> chainSlot.waiting.value.next.pipeline != next.pipeline
      requires chained.Some? ==> chained.value.next.pipeline != next.pipeline
      modifies this`queue, this`pipeline, this`positionFrame, this`lastEndTime, this`completion
      modifies this`past, this`cells, this`report
      ensures TurnsOk() && TimesOk() && SlotsOk()
      ensures past == old(past) + [old(Current()).(ending := ending)]
      ensures Current() == Turn(next.pipeline, next.queue, [], None, Playing) && positionFrame == 0 == queue.popped
    {
      hide TurnOk, Truthful, Heard, Device, TurnsOver, Apart, Pipelines, Distinct, Unplayed, Aligned, LastEnd;
      MayPlay(next);
      NoEndYet();
      ghost var turn := Current().(ending := ending);
      TurnIsOver(ending, next.queue);
      ApartFromOneMore(channels, issued, Started(), next.pipeline, handoff.Offered(), chainSlot.Offered(), chained);
      NewTurnIsOk(channels, clockLimit, next.pipeline, next.queue);
      past := past + [turn];
      queue, pipeline := next.queue, next.pipeline;
      cells, report := [], None;
      positionFrame, lastEndTime, completion := 0, None, Pending;
    }

    lemma TurnIsOver(ending: Ending, next: Queue)
      requires Sized() && TurnsOk() && SlotsOk() && (ending == Followed ==> report.Some?)
      ensures var turns := past + [Current().(ending := ending)];
              && TurnsOver(channels, clockLimit, turns) && device == Device(turns) + Heard(next, [])
              && Distinct(turns) && Pipelines(turns) == Started()
    {
      hide Apart, Pipelines, Distinct, Device;
      var turn := Current().(ending := ending);
      ThisTurnMayEnd(ending);
      DeviceOneMore(past, turn);
      TurnsOverMore(channels, clockLimit, past, turn);
      DistinctOneMore(past, turn);
    }

    /** Empties both slots. A queue handed over ends the turn of the one that plays; a chain counts only
        if it follows the pipeline that plays afterwards. */
    method TakeHandoff()
      requires Sized() && TurnsOk() && TimesOk() && SlotsOk() && positionFrame * channels == queue.popped
      modifies this`queue, this`pipeline, this`positionFrame, this`lastEndTime, this`completion
      modifies this`past, this`cells, this`report, this`handoff, this`chainSlot, this`chained, this`issued
      ensures TurnsOk() && TimesOk() && SlotsOk() && positionFrame * channels == queue.popped
      ensures chained.Some? ==> chained.value.after == pipeline
      ensures old(handoff.Offered()).Some? ==>
        && past == old(past) + [old(Current()).(ending := Replaced)]
        && Current() == Turn(old(handoff.waiting.value.pipeline), old(handoff.waiting.value.queue), [], None, Playing)
      ensures old(handoff.Offered()) == None ==> Turns() == old(Turns())
      ensures Continues(old(Turns()), Turns())
    {
      hide TurnOk, Truthful, TurnsOver, Device, Heard, Faithful, Sounds, LastEnd, Aligned, Apart, Distinct, Pipelines;
      TakeReplacement();
      OwnerActs();
      TakeChain();
    }

    method TakeReplacement()
      requires Sized() && TurnsOk() && TimesOk() && SlotsOk() && positionFrame * channels == queue.popped
      modifies this`queue, this`pipeline, this`positionFrame, this`lastEndTime, this`completion
      modifies this`past, this`cells, this`report, this`handoff
      ensures TurnsOk() && TimesOk() && SlotsOk() && positionFrame * channels == queue.popped
      ensures !handoff.unread
      ensures old(handoff.Offered()).Some? ==>
        && past == old(past) + [old(Current()).(ending := Replaced)]
        && Current() == Turn(old(handoff.waiting.value.pipeline), old(handoff.waiting.value.queue), [], None, Playing)
      ensures old(handoff.Offered()) == None ==> Turns() == old(Turns())
    {
      hide TurnOk, Truthful, TurnsOver, Device, Heard, LastEnd, Aligned, Distinct, Pipelines, Unplayed;
      if handoff.unread {
        handoff := handoff.Update();
        if handoff.held.Some? {
          var next := handoff.held.value;
          handoff := handoff.(held := Some(Generation(queue, pipeline)));
          PlayNext(next, Replaced);
        }
      }
    }

    method TakeChain()
      requires Sized() && SlotsOk()
      modifies this`chainSlot, this`chained
      ensures SlotsOk() && (chained.Some? ==> chained.value.after == pipeline)
      ensures var newest := if old(chainSlot.unread) then old(chainSlot.waiting) else old(chained);
              chained == if newest.Some? && newest.value.after == pipeline then newest else None
      ensures !chainSlot.unread
    {
      if chainSlot.unread {
        chainSlot := chainSlot.Update();
        chained := chainSlot.held;
        chainSlot := chainSlot.(held := None);
      }
      if chained.Some? && chained.value.after != pipeline {
        chained := None;
      }
    }

    /** The turn that reported its end is over, and the chained pipeline's begins at frame zero. */
    method ChainToNext()
      requires Sized() && TurnsOk() && SlotsOk() && chained.Some? && report.Some?
      modifies this`queue, this`pipeline, this`positionFrame, this`lastEndTime, this`completion
      modifies this`past, this`cells, this`report, this`handoff, this`chained
      ensures TurnsOk() && TimesOk() && SlotsOk() && chained == None && handoff.Offered() == old(handoff.Offered())
      ensures past == old(past) + [old(Current()).(ending := Followed)]
      ensures Current() == Turn(old(chained.value.next.pipeline), old(chained.value.next.queue), [], None, Playing)
      ensures positionFrame == 0 == queue.popped
    {
      hide TurnOk, Truthful, TurnsOver, Device, Heard, LastEnd, Aligned, Distinct, Pipelines, Unplayed;
      var next := chained.value.next;
      chained := None;
      handoff := handoff.(held := Some(Generation(queue, pipeline)));
      PlayNext(next, Followed);
    }

    method NoteEndTime(start: real, samples: nat)
      modifies this`lastEndTime
      ensures lastEndTime == if samples > 0 then CalculateEndTime(start, samples) else old(lastEndTime)
    {
      if samples > 0 {
        lastEndTime := CalculateEndTime(start, samples);
      }
    }

    lemma ReportedIsLastSound()
      requires Sized() && TurnsOk()
      ensures report.Some? ==>
        forall k: nat :: IsLastSound(cells, k) && cells[k].ends <= clockLimit
            ==> report == Some(FinalFrames(cells[k].ends))
    {
      forall k: nat | IsLastSound(cells, k) ensures LastEnd(cells) == Some(cells[k].ends) {
        LastSoundEnds(cells, k);
      }
    }

    method ReportCompletion()
      requires Sized() && TurnsOk() && TimesOk() && SlotsOk()
      modifies this`queue, this`completion, this`report
      ensures TurnsOk() && TimesOk() && SlotsOk()
      ensures queue.popped == old(queue.popped) && old(queue.pushed) <= queue.pushed
      ensures old(queue.finished) ==> queue == old(queue)
      ensures old(report).Some? ==> report == old(report)
      ensures old(queue.Ended()) ==> report.Some?
      ensures report.Some? ==>
        forall k: nat :: IsLastSound(cells, k) && cells[k].ends <= clockLimit
            ==> report == Some(FinalFrames(cells[k].ends))
    {
      ReportedIsLastSound();
      if completion != Pending {
        return;
      }
      var over := IsFinished();
      if !over {
        return;
      }
      SoundsHaveAnEnd(cells);
      if lastEndTime.Some? {
        completion := Reported;
        report := Some(FinalFrames(lastEndTime.value));
      } else {
        completion := CompletionTimingFailed;
        report := Some(TimingFailed);
      }
      ReportedIsLastSound();
    }

    /** Pops up to `room` samples, for the buffer that is heard from `playbackTime`, at `offset`. */
    method PopSamples(room: nat, ghost offset: nat, ghost playbackTime: real) returns (samples: seq<Sample>)
      requires Sized() && TurnsOk()
      modifies this`queue, this`cells, this`device
      ensures TurnsOk() && |samples| <= room
      ensures Plays(channels, sampleRate, playbackTime, offset, old(Current()), Current(), samples)
      ensures device == old(device) + Somes(samples)
      ensures |samples| < room ==> queue.Drained()
    {
      hide Heard, Device, TurnsOver, Faithful, Sounds, LastEnd, SoundRun;
      DecodeThreadActs();
      var first := queue.popped;
      var count := Smaller(room, |queue.pushed| - first);
      samples := queue.pushed[first..first + count];
      ghost var next := PlayOn(channels, sampleRate, Current(), count, playbackTime, offset);
      PlayOnIsOk(channels, sampleRate, clockLimit, Current(), count, playbackTime, offset);
      queue := queue.(popped := first + count);
      cells := next.cells;
      device := device + Somes(samples);
      assert Current() == next;
    }

    /** Plays up to `size` samples into `output` behind the `heard` ones, and returns how many. */
    method WriteChunk<T>(output: array<T>, from: nat, at: nat, size: nat, render: Sample -> T,
                         ghost playbackTime: real, ghost first: Turn, ghost heard: seq<Sample>)
      returns (popped: nat, ghost samples: seq<Sample>)
      requires Sized() && TurnsOk() && at == from + |heard| && at + size <= output.Length
      requires Plays(channels, sampleRate, playbackTime, from, first, Current(), heard)
      requires forall j :: from <= j < at ==> output[j] == render(heard[j - from])
      modifies this`queue, this`cells, this`device, output
      ensures TurnsOk() && popped == |samples| <= size
      ensures Plays(channels, sampleRate, playbackTime, from, first, Current(), heard + samples)
      ensures device == old(device) + Somes(samples) && Somes(heard + samples) == Somes(heard) + Somes(samples)
      ensures forall j :: 0 <= j < from ==> output[j] == old(output[j])
      ensures forall j :: from <= j < at + popped ==> output[j] == render((heard + samples)[j - from])
      ensures popped < size ==> queue.Drained()
    {
      ghost var before := Current();
      var chunk := PopSamples(size, at, playbackTime);
      PlaysTwice(channels, sampleRate, playbackTime, from, first, before, Current(), heard, chunk);
      CopyInto(output, from, heard, at, chunk, render);
      popped, samples := |chunk|, chunk;
    }

    /** Fills `output` from `from` on with the queue's next samples. It stops short only at an empty ring. */
    method WriteChunks<T>(output: array<T>, from: nat, render: Sample -> T, ghost playbackTime: real)
      returns (consumed: nat, ghost heard: seq<Sample>)
      requires Sized() && TurnsOk() && from <= output.Length
      modifies this`queue, this`cells, this`device, output
      ensures TurnsOk() && consumed == |heard| <= output.Length - from
      ensures Plays(channels, sampleRate, playbackTime, from, old(Current()), Current(), heard)
      ensures device == old(device) + Somes(heard)
      ensures forall j :: 0 <= j < from ==> output[j] == old(output[j])
      ensures forall j :: from <= j < from + consumed ==> output[j] == render(heard[j - from])
      ensures consumed < output.Length - from ==> queue.Drained()
    {
      hide TurnOk, Truthful, TurnsOver, Device, Heard, Faithful, Sounds, LastEnd, Aligned, Plays;
      consumed, heard := 0, [];
      ghost var first, before := Current(), device;
      PlaysNothing(channels, sampleRate, playbackTime, from, first);
      var short := false;
      while from + consumed < output.Length && !short
        invariant TurnsOk() && consumed == |heard| <= output.Length - from
        invariant Plays(channels, sampleRate, playbackTime, from, first, Current(), heard)
        invariant device == before + Somes(heard)
        invariant forall j :: 0 <= j < from ==> output[j] == old(output[j])
        invariant forall j :: from <= j < from + consumed ==> output[j] == render(heard[j - from])
        invariant short ==> queue.Drained()
        decreases !short, output.Length - consumed
      {
        var size := Smaller(FILL_CHUNK_SAMPLES, output.Length - from - consumed);
        var popped; ghost var samples;
        popped, samples := WriteChunk(output, from, from + consumed, size, render, playbackTime, first, heard);
        consumed, heard := consumed + popped, heard + samples;
        short := popped < size;
      }
    }

    /** As many whole frames as there are, up to the end of `output`, go in from `from` on; no other slot
        changes. */
    method WriteQueueSamples<T>(output: array<T>, from: nat, render: Sample -> T, ghost playbackTime: real)
      returns (consumed: nat, ghost heard: seq<Sample>)
      requires Sized() && TurnsOk() && from <= output.Length
      requires output.Length % channels == 0 && from % channels == 0 && queue.popped % channels == 0
      modifies this`queue, this`cells, this`device, output
      ensures TurnsOk() && consumed == |heard| <= output.Length - from && consumed % channels == 0
      ensures Plays(channels, sampleRate, playbackTime, from, old(Current()), Current(), heard)
      ensures device == old(device) + Somes(heard)
      ensures forall j :: 0 <= j < from ==> output[j] == old(output[j])
      ensures forall j :: from <= j < from + consumed ==> output[j] == render(heard[j - from])
      ensures consumed < output.Length - from ==> queue.Drained()
    {
      ghost var first := queue.popped;
      consumed, heard := WriteChunks(output, from, render, playbackTime);
      AlignedSum(output.Length, from, channels);
      SegmentEndsOnAFrame(channels, queue, first, consumed, output.Length - from);
    }

    /** Where a segment stands: `samples` of the playing queue fill `output` up to `written`, the first
        of them is heard at `time`, and they are not counted yet. */
    ghost predicate InSegment(playbackTime: real, written: nat, samples: nat, time: real)
      requires Sized()
      reads this
    {
      && samples <= written && samples % channels == 0 && written % channels == 0
      && queue.popped == positionFrame * channels + samples
      && (EndAfter(channels, sampleRate, playbackTime, written - samples) <= clockLimit ==>
            time == EndAfter(channels, sampleRate, playbackTime, written - samples))
      && (samples == 0 ==> TimesOk())
      && (samples > 0 ==> LastEnd(cells) == Some(EndAfter(channels, sampleRate, playbackTime, written)))
    }

    /** The frames from `start` to before `end` are the last that were played, and the first of them is heard at
        `time`, unless the clock cannot hold when the last one is. */
    ghost predicate SpanIsTrue(start: nat, end: nat, time: real)
      requires Sized()
      reads this
    {
      && start <= end
      && (start < end && LastEnd(cells).Some? && LastEnd(cells).value <= clockLimit ==>
            (LastEnd(cells).value - time) * sampleRate as real == (end - start) as real)
    }

    lemma SegmentIsASpan(start: nat, time: real, samples: nat)
      requires Sized() && samples % channels == 0
      requires samples > 0 && LastEnd(cells).Some? && LastEnd(cells).value <= clockLimit ==>
                 CalculateEndTime(time, samples) == LastEnd(cells)
      ensures SpanIsTrue(start, start + samples / channels, time)
    {
      EndIsOnTime(channels, sampleRate, time, samples);
    }

    lemma SegmentTimes(playbackTime: real, written: nat, samples: nat, time: real)
      requires Sized() && 0 < samples && InSegment(playbackTime, written, samples, time)
      ensures LastEnd(cells).value <= clockLimit ==> CalculateEndTime(time, samples) == LastEnd(cells)
    {
      AlignedSum(written, samples, channels);
      EndsAddUp(channels, sampleRate, playbackTime, written - samples, samples);
    }

    /** Counts the frames of a segment that is over, and notes when its last is heard. */
    method CountSegment(time: real, samples: nat, ghost playbackTime: real, ghost written: nat)
      requires Sized() && TurnsOk() && SlotsOk() && InSegment(playbackTime, written, samples, time)
      modifies this`positionFrame, this`lastEndTime
      ensures TurnsOk() && TimesOk() && SlotsOk()
      ensures positionFrame * channels == queue.popped && positionFrame == old(positionFrame) + samples / channels
      ensures SpanIsTrue(old(positionFrame), positionFrame, time)
    {
      hide TurnOk, Truthful, TurnsOver, Device, Heard, Apart, Distinct, Pipelines, LastEnd, EndAfter;
      if samples > 0 {
        SegmentTimes(playbackTime, written, samples, time);
      }
      WholeUnits(positionFrame, samples, channels);
      SegmentIsASpan(positionFrame, time, samples);
      positionFrame := positionFrame + samples / channels;
      NoteEndTime(time, samples);
    }

    /** Plays what the queue has behind the `written` samples of `output`. */
    method PlaySegment<T>(output: array<T>, written: nat, samples: nat, time: real, render: Sample -> T, equilibrium: T,
                          ghost playbackTime: real, ghost sofar: seq<Option<Sample>>)
      returns (popped: nat, ghost heard: seq<Option<Sample>>)
      requires Sized() && TurnsOk() && InSegment(playbackTime, written, samples, time)
      requires written <= output.Length && output.Length % channels == 0 && |sofar| == written
      requires forall j :: 0 <= j < written ==> output[j] == Rendered(render, equilibrium, sofar[j])
      modifies this`queue, this`cells, this`device, output
      ensures TurnsOk() && written + popped <= output.Length
      ensures InSegment(playbackTime, written + popped, samples + popped, time)
      ensures |heard| == written + popped && sofar <= heard && device == old(device) + heard[written..]
      ensures forall j :: 0 <= j < written + popped ==> output[j] == Rendered(render, equilibrium, heard[j])
      ensures Fills(channels, sampleRate, playbackTime, written, heard[written..], old(Turns()), Turns())
      ensures old(queue.popped) <= queue.popped <= |queue.pushed|
           && heard[written..] == Somes(queue.pushed[old(queue.popped)..queue.popped])
      ensures written + popped < output.Length ==> queue.Drained()
    {
      hide TurnOk, Truthful, TurnsOver, Device, Heard, Faithful, Sounds, LastEnd, EndAfter, Aligned, Continues,
          SoundRun, Fills;
      ghost var before := Current();
      MultipleIs(positionFrame, channels);
      AlignedSum(positionFrame * channels, samples, channels);
      ghost var played;
      popped, played := WriteQueueSamples(output, written, render, playbackTime);
      PlaysUntil(channels, sampleRate, playbackTime, written, before, Current(), played);
      AlignedSum(written, popped, channels);
      AlignedSum(samples, popped, channels);
      heard := sofar + Somes(played);
      assert heard[written..] == Somes(played);
      PlayedFills(channels, sampleRate, playbackTime, written, past, before, Current(), played);
    }

    /** Ends the segment of a queue that played out, and moves on to the chained one. */
    method Advance(time: real, samples: nat, playbackTime: real, written: nat) returns (next: real)
      requires Sized() && TurnsOk() && SlotsOk() && InSegment(playbackTime, written, samples, time)
      requires chained.Some? && queue.Ended()
      modifies this`queue, this`pipeline, this`positionFrame, this`lastEndTime, this`completion
      modifies this`past, this`cells, this`report, this`handoff, this`chained
      ensures TurnsOk() && SlotsOk() && InSegment(playbackTime, written, 0, next)
      ensures chained == None && positionFrame == 0
      ensures Fills(channels, sampleRate, playbackTime, written, [], old(Turns()), Turns())
      ensures |past| == |old(past)| + 1 && past[|old(past)|].report.Some?
    {
      hide TurnsOk, TimesOk, SlotsOk, LastEnd, EndAfter, Continues, Fills;
      ghost var before := Current();
      CountSegment(time, samples, playbackTime, written);
      ReportCompletion();
      ghost var over := Current().(ending := Followed);
      ChainToNext();
      MovedOn(old(past), before, over, Current());
      FillsNothing(channels, sampleRate, playbackTime, written, old(Turns()), Turns());
      var end := CalculateEndTime(playbackTime, written);
      next := if end.Some? then end.value else playbackTime;
    }

    /** Records the silence a buffer is padded with. */
    ghost method StaySilent(count: nat, seen: Queue, followed: bool) returns (silence: seq<Cell>)
      requires Sized() && TurnsOk()
      requires count > 0 ==> seen.Drained() && seen.popped == queue.popped && !(seen.finished && followed)
      modifies this`cells, this`device
      ensures TurnsOk() && LastEnd(cells) == LastEnd(old(cells)) && Went(old(Current()), Current())
      ensures device == old(device) + seq(count, _ => None)
      ensures cells == old(cells) + silence && |silence| == count && forall c :: c in silence ==> c.Quiet?
    {
      hide TurnsOver, Device, Faithful, Sounds, LastEnd, Aligned;
      silence := [];
      if count > 0 {
        silence := Padding(count, |seen.pushed|, seen.finished, followed);
        PaddingIsFaithful(cells, count, seen.finished, followed);
        HeardMore(queue, cells, silence);
        HeardPadding(queue, count, |seen.pushed|, seen.finished, followed);
        assert cells <= cells + silence;
        cells := cells + silence;
      }
      device := device + seq(count, _ => None);
    }

    /** Pads the rest of the buffer. */
    method Pad<T>(output: array<T>, written: nat, samples: nat, time: real, render: Sample -> T, equilibrium: T,
                  ghost seen: Queue, ghost followed: bool, ghost playbackTime: real, ghost sofar: seq<Option<Sample>>)
      returns (ghost heard: seq<Option<Sample>>)
      requires Sized() && TurnsOk() && InSegment(playbackTime, written, samples, time)
      requires written <= output.Length && |sofar| == written
      requires written < output.Length ==> seen.Drained() && seen.popped == queue.popped && !(seen.finished && followed)
      requires forall j :: 0 <= j < written ==> output[j] == Rendered(render, equilibrium, sofar[j])
      modifies this`cells, this`device, output
      ensures TurnsOk() && InSegment(playbackTime, written, samples, time)
      ensures |heard| == output.Length && sofar <= heard && device == old(device) + heard[written..]
      ensures forall j :: 0 <= j < output.Length ==> output[j] == Rendered(render, equilibrium, heard[j])
      ensures Fills(channels, sampleRate, playbackTime, written, heard[written..], old(Turns()), Turns())
    {
      hide TurnOk, Truthful, TurnsOver, Device, Heard, Faithful, Sounds, LastEnd, EndAfter, Aligned, Continues,
          Fills;
      ghost var before := Current();
      ghost var silence := StaySilent(output.Length - written, seen, followed);
      SilenceFills(channels, sampleRate, playbackTime, written, past, before, Current(), silence);
      FillRest(output, written, equilibrium);
      heard := sofar + seq(output.Length - written, _ => None);
      assert heard[written..] == seq(output.Length - written, _ => None);
    }

    /** Plays the queue into `output`; `over` when it ran out for good and another is to follow.
        `seen` is the queue as the last pop left it. */
    method PlayUntilStopped<T>(output: array<T>, written: nat, samples: nat, time: real, render: Sample -> T,
                               equilibrium: T,
                               ghost playbackTime: real, ghost sofar: seq<Option<Sample>>)
      returns (popped: nat, over: bool, ghost heard: seq<Option<Sample>>, ghost seen: Queue)
      requires Sized() && TurnsOk() && InSegment(playbackTime, written, samples, time)
      requires written <= output.Length && output.Length % channels == 0 && |sofar| == written
      requires forall j :: 0 <= j < written ==> output[j] == Rendered(render, equilibrium, sofar[j])
      modifies this`queue, this`cells, this`device, output
      ensures TurnsOk() && written + popped <= output.Length
      ensures InSegment(playbackTime, written + popped, samples + popped, time)
      ensures |heard| == written + popped && sofar <= heard && device == old(device) + heard[written..]
      ensures forall j :: 0 <= j < written + popped ==> output[j] == Rendered(render, equilibrium, heard[j])
      ensures Fills(channels, sampleRate, playbackTime, written, heard[written..], old(Turns()), Turns())
      ensures old(queue.popped) <= queue.popped <= |queue.pushed|
           && heard[written..] == Somes(queue.pushed[old(queue.popped)..queue.popped])
      ensures over ==> chained.Some? && queue.Ended()
      ensures !over && written + popped < output.Length
        ==> seen.Drained() && seen.popped == queue.popped && !(seen.finished && chained.Some?)
    {
      hide TurnOk, Truthful, TurnsOver, Device, Heard, Faithful, Sounds, LastEnd, EndAfter, Aligned, Continues,
          Fills;
      popped, heard := PlaySegment(output, written, samples, time, render, equilibrium, playbackTime, sofar);
      seen, over := queue, false;
      ghost var before, here := Current(), Turns();
      if written + popped != output.Length && chained.Some? {
        over := IsFinished();
        WentOn(past, before, Current());
        FillsNothing(channels, sampleRate, playbackTime, written + popped, here, Turns());
        FillsOn(channels, sampleRate, playbackTime, written, heard[written..], [], old(Turns()), here, Turns());
        assert heard[written..] + [] == heard[written..];
      }
    }

    /** Plays the queue, and the chained one behind it if it runs out, into `output`. At most one turn
        ends here, and its end is reported. */
    method PlayThrough<T>(output: array<T>, render: Sample -> T, equilibrium: T, playbackTime: real)
      returns (written: nat, startFrame: nat, samples: nat, time: real,
               ghost heard: seq<Option<Sample>>, ghost seen: Queue, ghost first: nat)
      requires Sized() && TurnsOk() && TimesOk() && SlotsOk() && positionFrame * channels == queue.popped
      requires output.Length % channels == 0
      modifies this`queue, this`pipeline, this`positionFrame, this`lastEndTime, this`completion
      modifies this`past, this`cells, this`report, this`device, this`handoff, this`chained, output
      ensures TurnsOk() && SlotsOk() && InSegment(playbackTime, written, samples, time) && startFrame == positionFrame
      ensures Fills(channels, sampleRate, playbackTime, 0, heard, old(Turns()), Turns())
      ensures |heard| == written <= output.Length && device == old(device) + heard
      ensures first == positionFrame * channels && first <= queue.popped <= |queue.pushed| && samples <= written
           && heard[written - samples..] == Somes(queue.pushed[first..queue.popped])
      ensures forall j :: 0 <= j < written ==> output[j] == Rendered(render, equilibrium, heard[j])
      ensures written < output.Length ==>
        seen.Drained() && seen.popped == queue.popped && !(seen.finished && chained.Some?)
      ensures |old(past)| <= |past| <= |old(past)| + 1
      ensures |past| == |old(past)| + 1 ==> past[|old(past)|].report.Some?
    {
      hide TurnsOk, TimesOk, InSegment, Fills, LastEnd, EndAfter, Rendered, Apart, Distinct, Pipelines, Continues,
          Somes;
      written, startFrame, samples, time := 0, positionFrame, 0, playbackTime;
      heard, seen, first := [], queue, queue.popped;
      ghost var start, before := Turns(), device;
      ContinuesItself(start);
      FillsNothing(channels, sampleRate, playbackTime, 0, start, start);
      StartsHere(playbackTime);
      while true
        invariant TurnsOk() && SlotsOk() && InSegment(playbackTime, written, samples, time)
        invariant samples == 0 && startFrame == positionFrame && written <= output.Length
        invariant Fills(channels, sampleRate, playbackTime, 0, heard, start, Turns())
        invariant |heard| == written && device == before + heard
        invariant forall j :: 0 <= j < written ==> output[j] == Rendered(render, equilibrium, heard[j])
        invariant |old(past)| <= |past| <= |old(past)| + if chained.Some? then 0 else 1
        invariant |past| == |old(past)| + 1 ==> past[|old(past)|].report.Some?
        decreases if chained.Some? then 1 else 0
      {
        ghost var here := Turns();
        var popped, over; ghost var more;
        first := queue.popped;
        NothingCounted(playbackTime, written, time);
        popped, over, more, seen := PlayUntilStopped(output, written, samples, time, render, equilibrium, playbackTime,
                                                     heard);
        FillsOn(channels, sampleRate, playbackTime, 0, heard, more[written..], start, here, Turns());
        assert heard + more[written..] == more;
        written, samples, heard := written + popped, samples + popped, more;
        if !over {
          break;
        }
        here := Turns();
        time := Advance(time, samples, playbackTime, written);
        FillsOn(channels, sampleRate, playbackTime, 0, heard, [], start, here, Turns());
        assert heard + [] == heard;
        startFrame, samples := 0, 0;
      }
    }

    lemma NothingCounted(playbackTime: real, written: nat, time: real)
      requires Sized() && InSegment(playbackTime, written, 0, time)
      ensures queue.popped == positionFrame * channels
    {
    }

    lemma StartsHere(playbackTime: real)
      requires Sized() && TimesOk() && positionFrame * channels == queue.popped
      ensures InSegment(playbackTime, 0, 0, playbackTime)
    {
    }

    /** One run of the output callback. Each slot of the buffer becomes the next sample of the pipeline whose
        turn it is, or an underrun; turns change only by a handoff or at a reported end; and what is
        reported of position and end is true. */
    method Fill<T>(output: array<T>, playbackTime: real, render: Sample -> T, equilibrium: T)
      returns (ghost heard: seq<Option<Sample>>, ghost segment: nat)
      requires Valid() && output.Length % channels == 0
      modifies this`queue, this`pipeline, this`handoff, this`chainSlot, this`chained, this`issued
      modifies this`positionFrame, this`lastEndTime, this`completion, this`latest
      modifies this`past, this`cells, this`report, this`device, output
      ensures Valid() && Continues(old(Turns()), Turns())
      ensures Fills(channels, sampleRate, playbackTime, 0, heard, old(Turns()), Turns())
      ensures |heard| == output.Length && device == old(device) + heard
      ensures forall j :: 0 <= j < output.Length ==>
        output[j] == if heard[j].Some? then render(heard[j].value) else equilibrium
      ensures |past| <= |old(past)| + 2
      ensures latest == old(latest)
           || (latest.Some? && ReportIsTrue(latest.value)
               && SpanIsHeard(queue, latest.value.startFrame, latest.value.playbackTime, playbackTime, heard, segment))
      ensures old(handoff.Offered()) == None && old(queue.Ended()) ==> Turns()[|old(past)|].report.Some?
      ensures old(handoff.Offered()).Some? ==>
        && |past| > |old(past)| && Turns()[|old(past)|] == old(Current()).(ending := Replaced)
        && Turns()[|old(past)| + 1].pipeline == old(handoff.waiting.value.pipeline)
    {
      hide TurnsOk, TimesOk, SlotsOk, Played, Anchored, Continues, Distinct, Fills, SpanIsHeard;
      TakeHandoff();
      FillsNothing(channels, sampleRate, playbackTime, 0, old(Turns()), Turns());
      ghost var taken, start := |past|, Turns();
      var startFrame, time;
      startFrame, time, heard, segment := FillBuffer(output, render, equilibrium, playbackTime);
      FillsOn(channels, sampleRate, playbackTime, 0, [], heard, old(Turns()), start, Turns());
      assert [] + heard == heard;
      FillsGoOn(channels, sampleRate, playbackTime, 0, heard, old(Turns()), Turns());
      FillsGoOn(channels, sampleRate, playbackTime, 0, heard, start, Turns());
      TurnsAreDistinct();
      PositionsKept(channels, old(Turns()), Turns(), latest, streamPipeline, latestUpdate, lastPlayed);
      QueueInBounds();
      TurnKept(start, Turns(), taken);
      ghost var here := Turns();
      ghost var queueThen := queue;
      ReportPositionAndEnd(startFrame, time);
      StillHeard(queueThen, queue, startFrame, time, playbackTime, heard, segment);
      FillsNothing(channels, sampleRate, playbackTime, |heard|, here, Turns());
      FillsOn(channels, sampleRate, playbackTime, 0, heard, [], old(Turns()), here, Turns());
      assert heard + [] == heard;
      FillsGoOn(channels, sampleRate, playbackTime, 0, heard, old(Turns()), Turns());
      ContinuesOn(start, here, Turns());
      TurnKept(here, Turns(), taken);
      if taken > |old(past)| {
        TurnKept(start, Turns(), |old(past)|);
        TurnKept(start, Turns(), taken);
      }
    }

    /** The frames from `start` on are in the buffer from slot `segment` on, and `time` is when that slot is heard, if
        the clock can hold it. */
    ghost predicate SpanIsHeard(queue: Queue, start: nat, time: real, playbackTime: real, heard: seq<Option<Sample>>,
                                segment: nat)
      requires Sized()
    {
      && segment % channels == 0 && start * channels <= queue.popped <= |queue.pushed|
      && segment + (queue.popped - start * channels) <= |heard|
      && heard[segment..segment + (queue.popped - start * channels)]
         == Somes(queue.pushed[start * channels..queue.popped])
      && (playbackTime + (segment / channels) as real / sampleRate as real <= clockLimit ==>
            (time - playbackTime) * sampleRate as real == (segment / channels) as real)
    }

    lemma StillHeard(before: Queue, after: Queue, start: nat, time: real, playbackTime: real,
                     heard: seq<Option<Sample>>, segment: nat)
      requires Sized() && SpanIsHeard(before, start, time, playbackTime, heard, segment)
      requires before.popped == after.popped && before.pushed <= after.pushed
      ensures SpanIsHeard(after, start, time, playbackTime, heard, segment)
    {
      var first := start * channels;
      assert before.pushed[first..before.popped] == after.pushed[first..after.popped];
    }

    lemma SegmentOnTime(playbackTime: real, written: nat, samples: nat, time: real)
      requires Sized() && InSegment(playbackTime, written, samples, time)
      ensures (written - samples) % channels == 0
      ensures playbackTime + ((written - samples) / channels) as real / sampleRate as real <= clockLimit ==>
        (time - playbackTime) * sampleRate as real == ((written - samples) / channels) as real
    {
      AlignedSum(written, samples, channels);
      EndIsOnTime(channels, sampleRate, playbackTime, written - samples);
    }

    /** A report about the last segment: the frames played at its end, and its span on the clock. */
    ghost predicate ReportIsTrue(update: PositionUpdate)
      requires Sized()
      reads this
    {
      && update.pipeline == pipeline && update.endFrame == positionFrame
      && SpanIsTrue(update.startFrame, update.endFrame, update.playbackTime)
    }

    /** Publishes where the last segment left off, and the end of its pipeline if it is over. */
    method ReportPositionAndEnd(startFrame: nat, time: real)
      requires Sized() && TurnsOk() && TimesOk() && SlotsOk() && PositionsOk()
      requires SpanIsTrue(startFrame, positionFrame, time) && positionFrame * channels == queue.popped
      modifies this`queue, this`latest, this`completion, this`report
      ensures latest == old(latest) || latest == Some(PositionUpdate(pipeline, startFrame, positionFrame, time))
      ensures latest == old(latest) || ReportIsTrue(latest.value)
      ensures queue.popped == old(queue.popped) && old(queue.pushed) <= queue.pushed && cells == old(cells)
      ensures Valid() && Continues(old(Turns()), Turns()) && (old(queue.Ended()) ==> report.Some?)
    {
      hide TurnOk, Truthful, TurnsOver, Device, Heard, Sounds, LastEnd, Apart, Distinct, Pipelines, Continues, Anchored;
      Publish(startFrame, time);
      ghost var before := Turns();
      ReportCompletion();
      WentOn(past, before[|past|], Current());
      TurnsAreDistinct();
      PositionsKept(channels, before, Turns(), latest, streamPipeline, latestUpdate, lastPlayed);
    }

    lemma TurnsAreDistinct()
      requires Sized() && SlotsOk()
      ensures Distinct(Turns())
    {
      DistinctOneMore(past, Current());
    }

    lemma QueueInBounds()
      requires Sized() && TurnsOk()
      ensures queue.popped <= |queue.pushed|
    {
    }

    /** Fills the buffer from the queues, and returns the last segment's first frame and time. */
    method FillBuffer<T>(output: array<T>, render: Sample -> T, equilibrium: T, playbackTime: real)
      returns (startFrame: nat, time: real, ghost heard: seq<Option<Sample>>, ghost segment: nat)
      requires Sized() && TurnsOk() && TimesOk() && SlotsOk() && positionFrame * channels == queue.popped
      requires output.Length % channels == 0
      modifies this`queue, this`pipeline, this`positionFrame, this`lastEndTime, this`completion
      modifies this`past, this`cells, this`report, this`device, this`handoff, this`chained, output
      ensures TurnsOk() && TimesOk() && SlotsOk() && positionFrame * channels == queue.popped
      ensures Fills(channels, sampleRate, playbackTime, 0, heard, old(Turns()), Turns())
      ensures SpanIsTrue(startFrame, positionFrame, time)
        && SpanIsHeard(queue, startFrame, time, playbackTime, heard, segment)
      ensures |heard| == output.Length && device == old(device) + heard
      ensures forall j :: 0 <= j < output.Length ==> output[j] == Rendered(render, equilibrium, heard[j])
      ensures |old(past)| <= |past| <= |old(past)| + 1
      ensures |past| == |old(past)| + 1 ==> past[|old(past)|].report.Some?
    {
      hide TurnsOk, TimesOk, InSegment, Fills, LastEnd, EndAfter, Rendered, Apart, Distinct, Pipelines;
      ghost var before := device;
      var written, samples; ghost var sofar, seen, first;
      written, startFrame, samples, time, sofar, seen, first := PlayThrough(output, render, equilibrium, playbackTime);
      ghost var here := Turns();
      heard := Pad(output, written, samples, time, render, equilibrium, seen, chained.Some?, playbackTime, sofar);
      assert sofar + heard[written..] == heard;
      FillsOn(channels, sampleRate, playbackTime, 0, sofar, heard[written..], old(Turns()), here, Turns());
      segment := written - samples;
      SegmentOnTime(playbackTime, written, samples, time);
      assert heard[segment..written] == sofar[segment..];
      CountSegment(time, samples, playbackTime, written);
    }

    /** Leaves a position report for the stream, unless the stream is just reading the last one. */
    method Publish(startFrame: nat, time: real)
      requires startFrame <= positionFrame && positionFrame * channels <= queue.popped
      requires Played(channels, Turns(), latest)
      modifies this`latest
      ensures latest == old(latest) || latest == Some(PositionUpdate(pipeline, startFrame, positionFrame, time))
      ensures Played(channels, Turns(), latest)
    {
      if * {
        latest := Some(PositionUpdate(pipeline, startFrame, positionFrame, time));
      }
    }

    // ---- The stream's side ----

    /** Puts a pipeline into the callback's slot with no successor chained, and follows it from frame
        zero. */
    method SwitchQueue(consumer: Queue, next: PipelineId)
      requires Valid() && Aligned(channels, consumer) && consumer.popped == 0 && issued <= next
      modifies this`handoff, this`chainSlot, this`issued, this`streamPipeline, this`latest, this`latestUpdate,
          this`lastPlayed
      ensures Valid() && Turns() == old(Turns()) && streamPipeline == next && lastPlayed == 0
      ensures handoff.Offered() == Some(Generation(consumer, next)) && chainSlot.unread && chainSlot.waiting == None
      ensures latest == None && latestUpdate == None
    {
      hide TurnOk, Truthful, TurnsOver, Device, Heard, LastEnd, PlayedIn, Apart, Pipelines, Distinct;
      WriteHandoff(consumer, next);
      WithdrawChain();
      streamPipeline := next;
      ClearTimingAnchor();
      lastPlayed := 0;
    }

    method QueueNext(after: PipelineId, consumer: Queue, next: PipelineId)
      requires Valid() && Aligned(channels, consumer) && consumer.popped == 0 && issued <= next
      modifies this`chainSlot, this`issued
      ensures Valid() && Turns() == old(Turns())
        && chainSlot.Offered() == Some(Chain(after, Generation(consumer, next)))
    {
      WriteChain(after, consumer, next);
    }

    method ClearNext()
      requires Valid()
      modifies this`chainSlot
      ensures Valid() && Turns() == old(Turns()) && chainSlot.unread && chainSlot.waiting == None
    {
      WithdrawChain();
    }

    /** From now on positions are read from the reports of `next`, its frame zero first. */
    method AdoptNext(next: PipelineId)
      requires Valid()
      modifies this`streamPipeline, this`latest, this`latestUpdate, this`lastPlayed
      ensures Valid() && Turns() == old(Turns()) && streamPipeline == next && lastPlayed == 0
      ensures latest == None && latestUpdate == None
    {
      hide TurnOk, Truthful, TurnsOver, Device, Heard, Faithful, Sounds, LastEnd, PlayedIn, Apart;
      streamPipeline := next;
      ClearTimingAnchor();
      lastPlayed := 0;
    }

    method ClearTimingAnchor()
      modifies this`latest, this`latestUpdate
      ensures latest == None && latestUpdate == None
    {
      latest, latestUpdate := None, None;
    }

    /** Where the pipeline the stream follows is by the clock, as its last report has it: at least what
        was answered before, and within what was played. */
    method ReadPosition(now: real, rate: nat, maxFrames: Option<nat>) returns (position: nat)
      requires Valid()
      modifies this`latest, this`latestUpdate, this`lastPlayed
      ensures Valid() && Turns() == old(Turns()) && position == lastPlayed && streamPipeline == old(streamPipeline)
      ensures old(lastPlayed) <= position
      ensures position * channels <= PlayedIn(Turns(), streamPipeline)
      ensures maxFrames.Some? && old(lastPlayed) <= maxFrames.value ==> position <= maxFrames.value
      ensures latest == None
      ensures latestUpdate ==
        if old(latest).Some? && old(latest).value.pipeline == streamPipeline then old(latest) else old(latestUpdate)
      ensures position == if latestUpdate.Some?
        then PlayedFramePosition(latestUpdate.value, now, rate, maxFrames, old(lastPlayed))
                          else old(lastPlayed)
    {
      hide TurnOk, Truthful, TurnsOver, Device, Heard, Faithful, Sounds, LastEnd, PlayedIn, Apart, ElapsedFrames;
      var taken := latest;
      latest := None;
      if taken.Some? && taken.value.pipeline == streamPipeline {
        latestUpdate := taken;
      }
      position := lastPlayed;
      if latestUpdate.Some? {
        var update := latestUpdate.value;
        position := PlayedFramePosition(update, now, rate, maxFrames, lastPlayed);
        FewerFramesPlayed(position, Larger(lastPlayed, update.endFrame));
      }
      position := Larger(lastPlayed, position);
      lastPlayed := position;
    }

    lemma FewerFramesPlayed(fewer: nat, frames: nat)
      requires fewer <= frames
      ensures fewer * channels <= frames * channels
    {
    }

    // ---- Whole runs ----

    /** At any time the device was given what each pipeline contributed, in order, and silence. */
    lemma DevicePlaysWhatWasPushed()
      requires Valid()
      ensures Audible(device) == Contributed(Turns())
    {
      TurnsOverMore(channels, clockLimit, past, Current());
      DeviceOneMore(past, Current());
      DevicePlaysTheTurns(channels, clockLimit, Turns());
    }

    /** At any time, of any pipeline that played: silence is an underrun and never lies between a declared
        end and the queue that follows, and its end is reported only when it is over. */
    lemma EveryTurnIsFaithful(i: nat, j: nat)
      requires Valid() && i < |Turns()| && j < |Turns()[i].cells|
      ensures var before, cell := Sounds(Turns()[i].cells[..j]), Turns()[i].cells[j];
              && (cell.Sound? ==> cell.index == before)
              && (cell.Quiet? ==> cell.drained == before && !(cell.finished && cell.followed))
      ensures Truthful(clockLimit, Turns()[i])
    {
      TurnsOverMore(channels, clockLimit, past, Current());
      TurnAt(channels, clockLimit, Turns(), i);
      FaithfulAt(Turns()[i].cells, j);
    }
  }

  /** Renders `samples` into `output` behind the ones already `heard` from `from` on. */
  method CopyInto<T>(output: array<T>, from: nat, ghost heard: seq<Sample>, at: nat, samples: seq<Sample>,
                     render: Sample -> T)
    requires at == from + |heard| && at + |samples| <= output.Length
    requires forall j :: from <= j < at ==> output[j] == render(heard[j - from])
    modifies output
    ensures forall j :: 0 <= j < from ==> output[j] == old(output[j])
    ensures forall j :: from <= j < at + |samples| ==> output[j] == render((heard + samples)[j - from])
  {
    for i := 0 to |samples|
      invariant forall j :: 0 <= j < at ==> output[j] == old(output[j])
      invariant forall j :: at <= j < at + i ==> output[j] == render(samples[j - at])
    {
      output[at + i] := render(samples[i]);
    }
  }

  method FillRest<T>(output: array<T>, from: nat, value: T)
    requires from <= output.Length
    modifies output
    ensures forall j :: 0 <= j < from ==> output[j] == old(output[j])
    ensures forall j :: from <= j < output.Length ==> output[j] == value
  {
    for i := from to output.Length
      invariant forall j :: 0 <= j < from ==> output[j] == old(output[j])
      invariant forall j :: from <= j < i ==> output[j] == value
    {
      output[i] := value;
    }
  }
}
