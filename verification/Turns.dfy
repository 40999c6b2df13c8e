/** What an output device is given, pipeline by pipeline: a turn per pipeline, the cells it was
    played into, and what a listener may conclude from them. */
module Turns {
  import opened Arithmetic
  import opened Options

  type Sample = int
  type PipelineId = nat
  /** A pipeline's queue: everything pushed to it so far, how much of that was popped, and whether
      the producer declared the end. */
  datatype Queue = Queue(pushed: seq<Sample>, popped: nat, finished: bool) {
    predicate Drained() { popped == |pushed| }

    predicate Ended() { finished && Drained() }
  }

  ghost predicate Aligned(channels: nat, queue: Queue)
    requires channels >= 1
  {
    queue.popped <= |queue.pushed| && |queue.pushed| % channels == 0
  }

  /** One sample slot of the device. */
  datatype Cell =
    /** The pipeline's sample `index`; the frames up to it will have been heard at `ends`. */
    | Sound(index: nat, ends: real)
    /** Padding. The last pop left the queue drained with `drained` samples through it; `finished`
        says whether the end was declared by then, `followed` whether a chained queue was at hand. */
    | Quiet(drained: nat, finished: bool, followed: bool)

  datatype Report = FinalFrames(endTime: real) | TimingFailed

  /** How a pipeline's turn ended: another queue replaced it, or the chained one followed it. */
  datatype Ending = Playing | Replaced | Followed

  datatype Turn = Turn(pipeline: PipelineId, queue: Queue, cells: seq<Cell>, report: Option<Report>, ending: Ending)

  function Sounds(cells: seq<Cell>): nat {
    if cells == [] then 0
    else Sounds(cells[..|cells| - 1]) + if cells[|cells| - 1].Sound? then 1 else 0
  }

  /** What a cell may be after `sounds` sounds. */
  predicate Follows(sounds: nat, cell: Cell) {
    match cell
    case Sound(index, _) => index == sounds
    case Quiet(drained, finished, followed) => drained == sounds && !(finished && followed)
  }

  /** The pipeline's samples are heard from the first, in order, each once; silence is only ever an
      underrun, and never stands between a declared end and the queue that follows. */
  ghost predicate Faithful(cells: seq<Cell>) {
    cells == [] ||
    (Faithful(cells[..|cells| - 1]) && Follows(Sounds(cells[..|cells| - 1]), cells[|cells| - 1]))
  }

  lemma {:induction false} FaithfulAt(cells: seq<Cell>, j: nat)
    requires Faithful(cells) && j < |cells|
    ensures Follows(Sounds(cells[..j]), cells[j])
  {
    if j < |cells| - 1 {
      FaithfulAt(cells[..|cells| - 1], j);
      assert cells[..|cells| - 1][..j] == cells[..j];
    }
  }

  /** When the last sample of `cells` will have been heard. */
  function LastEnd(cells: seq<Cell>): Option<real> {
    if cells == [] then None
    else if cells[|cells| - 1].Sound? then Some(cells[|cells| - 1].ends)
    else LastEnd(cells[..|cells| - 1])
  }

  /** The end is reported only when the producer is done and the ring is empty, and
      carries the time the last sample is heard, if the clock can hold it. A pipeline that another
      follows was reported. */
  ghost predicate Truthful(limit: real, turn: Turn) {
    && (turn.ending == Followed ==> turn.report.Some?)
    && (turn.report.Some? ==>
      && turn.queue.Ended()
      && (Sounds(turn.cells) == 0 ==> turn.report.value == TimingFailed)
      && (turn.report.value.FinalFrames? ==> turn.report.value.endTime <= limit)
      && (LastEnd(turn.cells).Some? && LastEnd(turn.cells).value <= limit ==>
            turn.report.value == FinalFrames(LastEnd(turn.cells).value)))
  }

  lemma {:induction false} SoundsHaveAnEnd(cells: seq<Cell>)
    ensures Sounds(cells) > 0 <==> LastEnd(cells).Some?
  {
    if cells != [] {
      SoundsHaveAnEnd(cells[..|cells| - 1]);
    }
  }

  ghost predicate TurnOk(channels: nat, turn: Turn)
    requires channels >= 1
  {
    && Aligned(channels, turn.queue)
    && Sounds(turn.cells) == turn.queue.popped
    && Faithful(turn.cells)
  }

  lemma NewTurnIsOk(channels: nat, limit: real, pipeline: PipelineId, queue: Queue)
    requires channels >= 1 && Aligned(channels, queue) && queue.popped == 0
    ensures var turn := Turn(pipeline, queue, [], None, Playing);
            TurnOk(channels, turn) && Truthful(limit, turn) && Heard(queue, []) == [] && LastEnd([]) == None
  {
  }

  ghost predicate TurnsOver(channels: nat, limit: real, turns: seq<Turn>)
    requires channels >= 1
  {
    turns == [] ||
    (var last := turns[|turns| - 1];
     TurnsOver(channels, limit, turns[..|turns| - 1]) && TurnOk(channels, last) && Truthful(limit, last))
  }

  lemma TurnsOverMore(channels: nat, limit: real, turns: seq<Turn>, turn: Turn)
    requires channels >= 1 && TurnsOver(channels, limit, turns) && TurnOk(channels, turn) && Truthful(limit, turn)
    ensures TurnsOver(channels, limit, turns + [turn])
  {
    assert (turns + [turn])[..|turns|] == turns;
  }

  lemma {:induction false} TurnAt(channels: nat, limit: real, turns: seq<Turn>, i: nat)
    requires channels >= 1 && TurnsOver(channels, limit, turns) && i < |turns|
    ensures TurnOk(channels, turns[i]) && Truthful(limit, turns[i])
  {
    if i < |turns| - 1 {
      TurnAt(channels, limit, turns[..|turns| - 1], i);
    }
  }

  // ---- The device's side ----

  /** What one cell gives the device: a pipeline's sample, or silence. */
  function HeardOf(queue: Queue, cell: Cell): Option<Sample> {
    if cell.Sound? && cell.index < |queue.pushed| then Some(queue.pushed[cell.index]) else None
  }

  function Heard(queue: Queue, cells: seq<Cell>): seq<Option<Sample>> {
    seq(|cells|, i requires 0 <= i < |cells| => HeardOf(queue, cells[i]))
  }

  /** Everything the device was given, over all turns. */
  function Device(turns: seq<Turn>): seq<Option<Sample>> {
    if turns == [] then []
    else Device(turns[..|turns| - 1]) + Heard(turns[|turns| - 1].queue, turns[|turns| - 1].cells)
  }

  /** The samples among what was heard, without the silence. */
  function Audible(heard: seq<Option<Sample>>): seq<Sample> {
    if heard == [] then []
    else Audible(heard[..|heard| - 1]) + if heard[|heard| - 1].Some? then [heard[|heard| - 1].value] else []
  }

  lemma FaithfulMore(cells: seq<Cell>, cell: Cell)
    requires Faithful(cells) && Follows(Sounds(cells), cell)
    ensures Faithful(cells + [cell])
    ensures Sounds(cells + [cell]) == Sounds(cells) + if cell.Sound? then 1 else 0
    ensures LastEnd(cells + [cell]) == if cell.Sound? then Some(cell.ends) else LastEnd(cells)
  {
    assert (cells + [cell])[..|cells|] == cells;
  }

  /** When the first `samples` of a buffer that starts at `start` have been heard. */
  function EndAfter(channels: nat, sampleRate: nat, start: real, samples: nat): real
    requires channels >= 1 && sampleRate >= 1
  {
    start + (samples / channels) as real / sampleRate as real
  }

  lemma EndsAddUp(channels: nat, sampleRate: nat, start: real, a: nat, b: nat)
    requires channels >= 1 && sampleRate >= 1 && a % channels == 0 && b % channels == 0
    ensures EndAfter(channels, sampleRate, EndAfter(channels, sampleRate, start, a), b)
      == EndAfter(channels, sampleRate, start, a + b)
    ensures EndAfter(channels, sampleRate, start, a) <= EndAfter(channels, sampleRate, start, a + b)
  {
    AlignedSum(a, b, channels);
    var x, y, r := (a / channels) as real, (b / channels) as real, sampleRate as real;
    assert x / r + y / r == (x + y) / r;
    assert y / r >= 0.0;
  }

  /** `count` samples from `first`, played from sample `offset` of a buffer that starts at `start`. */
  function SoundRun(channels: nat, sampleRate: nat, start: real, offset: nat, first: nat, count: nat): seq<Cell>
    requires channels >= 1 && sampleRate >= 1
  {
    if count == 0 then []
    else SoundRun(channels, sampleRate, start, offset, first, count - 1)
         + [Sound(first + count - 1, EndAfter(channels, sampleRate, start, offset + count))]
  }

  lemma {:induction false} SoundRunIsFaithful(channels: nat, sampleRate: nat, start: real, offset: nat,
                                              cells: seq<Cell>, count: nat)
    requires channels >= 1 && sampleRate >= 1 && Faithful(cells)
    ensures var more := cells + SoundRun(channels, sampleRate, start, offset, Sounds(cells), count);
            && Faithful(more) && Sounds(more) == Sounds(cells) + count && |more| == |cells| + count
            && LastEnd(more) == if count == 0 then LastEnd(cells)
                else Some(EndAfter(channels, sampleRate, start, offset + count))
  {
    if count == 0 {
      assert cells + [] == cells;
    } else {
      SoundRunIsFaithful(channels, sampleRate, start, offset, cells, count - 1);
      var before := cells + SoundRun(channels, sampleRate, start, offset, Sounds(cells), count - 1);
      var cell := Sound(Sounds(cells) + count - 1, EndAfter(channels, sampleRate, start, offset + count));
      FaithfulMore(before, cell);
      assert cells + SoundRun(channels, sampleRate, start, offset, Sounds(cells), count) == before + [cell];
    }
  }

  lemma {:induction false} SoundRunsJoin(channels: nat, sampleRate: nat, start: real, offset: nat, first: nat, a: nat,
                                         b: nat)
    requires channels >= 1 && sampleRate >= 1
    ensures SoundRun(channels, sampleRate, start, offset, first, a)
      + SoundRun(channels, sampleRate, start, offset + a, first + a, b)
         == SoundRun(channels, sampleRate, start, offset, first, a + b)
  {
    if b > 0 {
      SoundRunsJoin(channels, sampleRate, start, offset, first, a, b - 1);
    }
  }

  lemma {:induction false} SoundRunAt(channels: nat, sampleRate: nat, start: real, offset: nat, first: nat, count: nat,
                                      i: nat)
    requires channels >= 1 && sampleRate >= 1 && i < count
    ensures |SoundRun(channels, sampleRate, start, offset, first, count)| == count
    ensures SoundRun(channels, sampleRate, start, offset, first, count)[i]
      == Sound(first + i, EndAfter(channels, sampleRate, start, offset + i + 1))
  {
    if i < count - 1 {
      SoundRunAt(channels, sampleRate, start, offset, first, count - 1, i);
    } else if count > 1 {
      SoundRunAt(channels, sampleRate, start, offset, first, count - 1, 0);
    }
  }

  function Padding(count: nat, drained: nat, finished: bool, followed: bool): seq<Cell> {
    seq(count, _ => Quiet(drained, finished, followed))
  }

  lemma {:induction false} PaddingIsFaithful(cells: seq<Cell>, count: nat, finished: bool, followed: bool)
    requires Faithful(cells) && !(finished && followed)
    ensures var more := cells + Padding(count, Sounds(cells), finished, followed);
            Faithful(more) && Sounds(more) == Sounds(cells) && LastEnd(more) == LastEnd(cells)
  {
    if count == 0 {
      assert cells + Padding(0, Sounds(cells), finished, followed) == cells;
    } else {
      hide Sounds, Faithful, LastEnd;
      PaddingIsFaithful(cells, count - 1, finished, followed);
      var before := cells + Padding(count - 1, Sounds(cells), finished, followed);
      FaithfulMore(before, Quiet(Sounds(cells), finished, followed));
      assert cells + Padding(count, Sounds(cells), finished, followed)
          == before + [Quiet(Sounds(cells), finished, followed)];
    }
  }

  /** A faithful turn plays exactly the samples popped from its queue, in order, each once. */
  lemma {:induction false} TurnPlaysAPrefix(queue: Queue, cells: seq<Cell>)
    requires Faithful(cells) && Sounds(cells) <= |queue.pushed|
    ensures Audible(Heard(queue, cells)) == queue.pushed[..Sounds(cells)]
  {
    if cells != [] {
      var n := |cells| - 1;
      TurnPlaysAPrefix(queue, cells[..n]);
      assert Heard(queue, cells)[..n] == Heard(queue, cells[..n]);
      assert Heard(queue, cells)[n] == HeardOf(queue, cells[n]);
    }
  }

  lemma {:induction false} AudibleConcat(a: seq<Option<Sample>>, b: seq<Option<Sample>>)
    ensures Audible(a + b) == Audible(a) + Audible(b)
  {
    if b == [] {
      assert a + b == a;
    } else {
      var n := |b| - 1;
      assert (a + b)[..|a + b| - 1] == a + b[..n];
      AudibleConcat(a, b[..n]);
    }
  }

  /** What each turn contributed: a pipeline that was followed all it was pushed, one that was replaced
      or is playing a prefix. */
  function Contributed(turns: seq<Turn>): seq<Sample> {
    if turns == [] then []
    else
      var t := turns[|turns| - 1];
      Contributed(turns[..|turns| - 1])
      + if t.ending == Followed then t.queue.pushed else t.queue.pushed[..Smaller(t.queue.popped, |t.queue.pushed|)]
  }

  /** Gapless conservation: over a whole run the device is given, in order, what each pipeline
      contributed, each sample once, and nothing else. */
  lemma {:induction false} DevicePlaysTheTurns(channels: nat, limit: real, turns: seq<Turn>)
    requires channels >= 1 && TurnsOver(channels, limit, turns)
    ensures Audible(Device(turns)) == Contributed(turns)
  {
    if turns != [] {
      var n := |turns| - 1;
      DevicePlaysTheTurns(channels, limit, turns[..n]);
      TurnPlaysAPrefix(turns[n].queue, turns[n].cells);
      AudibleConcat(Device(turns[..n]), Heard(turns[n].queue, turns[n].cells));
    }
  }

  /** What comes later never changes what was heard. */
  lemma HeardIsStable(queue: Queue, later: Queue, cells: seq<Cell>)
    requires queue.pushed <= later.pushed
    requires forall j :: 0 <= j < |cells| && cells[j].Sound? ==> cells[j].index < |queue.pushed|
    ensures Heard(queue, cells) == Heard(later, cells)
  {
  }

  function Somes(samples: seq<Sample>): seq<Option<Sample>> {
    seq(|samples|, i requires 0 <= i < |samples| => Some(samples[i]))
  }

  lemma HeardMore(queue: Queue, cells: seq<Cell>, more: seq<Cell>)
    ensures Heard(queue, cells + more) == Heard(queue, cells) + Heard(queue, more)
  {
  }

  lemma HeardRun(queue: Queue, channels: nat, sampleRate: nat, start: real, offset: nat, first: nat, count: nat)
    requires channels >= 1 && sampleRate >= 1 && first + count <= |queue.pushed|
    ensures Heard(queue, SoundRun(channels, sampleRate, start, offset, first, count))
      == Somes(queue.pushed[first..first + count])
  {
    var run := SoundRun(channels, sampleRate, start, offset, first, count);
    if count > 0 {
      SoundRunAt(channels, sampleRate, start, offset, first, count, 0);
    }
    forall i | 0 <= i < count ensures HeardOf(queue, run[i]) == Some(queue.pushed[first..first + count][i]) {
      SoundRunAt(channels, sampleRate, start, offset, first, count, i);
    }
  }

  lemma HeardPadding(queue: Queue, count: nat, drained: nat, finished: bool, followed: bool)
    ensures Heard(queue, Padding(count, drained, finished, followed)) == seq(count, _ => None)
  {
  }

  lemma {:induction false} IndicesInBounds(cells: seq<Cell>)
    requires Faithful(cells)
    ensures forall j :: 0 <= j < |cells| && cells[j].Sound? ==> cells[j].index < Sounds(cells)
  {
    if cells != [] {
      IndicesInBounds(cells[..|cells| - 1]);
    }
  }

  lemma {:induction false} DeviceOneMore(turns: seq<Turn>, turn: Turn)
    ensures Device(turns + [turn]) == Device(turns) + Heard(turn.queue, turn.cells)
  {
    assert (turns + [turn])[..|turns|] == turns;
  }

  /** The turn after `count` more samples are popped and played at `offset` of a buffer. */
  function PlayOn(channels: nat, sampleRate: nat, turn: Turn, count: nat, start: real, offset: nat): Turn
    requires channels >= 1 && sampleRate >= 1
  {
    turn.(queue := turn.queue.(popped := turn.queue.popped + count),
          cells := turn.cells + SoundRun(channels, sampleRate, start, offset, turn.queue.popped, count))
  }

  lemma PlayOnIsOk(channels: nat, sampleRate: nat, limit: real, turn: Turn, count: nat, start: real, offset: nat)
    requires channels >= 1 && sampleRate >= 1
    requires TurnOk(channels, turn) && Truthful(limit, turn) && turn.queue.popped + count <= |turn.queue.pushed|
    ensures var next := PlayOn(channels, sampleRate, turn, count, start, offset);
            && TurnOk(channels, next) && Truthful(limit, next)
            && Heard(next.queue, next.cells)
               == Heard(turn.queue, turn.cells) + Somes(turn.queue.pushed[turn.queue.popped..turn.queue.popped + count])
  {
    var next := PlayOn(channels, sampleRate, turn, count, start, offset);
    var run := SoundRun(channels, sampleRate, start, offset, turn.queue.popped, count);
    SoundRunIsFaithful(channels, sampleRate, start, offset, turn.cells, count);
    IndicesInBounds(turn.cells);
    HeardIsStable(turn.queue, next.queue, turn.cells);
    HeardMore(next.queue, turn.cells, run);
    HeardRun(next.queue, channels, sampleRate, start, offset, turn.queue.popped, count);
    assert count == 0 ==> next.cells == turn.cells;
  }

  /** From `before` to `after` the pipeline played its next `heard` samples, at `offset` of a buffer,
      while its producer may have pushed more. */
  ghost predicate Plays(channels: nat, sampleRate: nat, start: real, offset: nat, before: Turn, after: Turn,
                        heard: seq<Sample>)
    requires channels >= 1 && sampleRate >= 1
  {
    && after.pipeline == before.pipeline && after.report == before.report && after.ending == before.ending
    && before.queue.pushed <= after.queue.pushed
    && (before.queue.finished ==> after.queue.finished && after.queue.pushed == before.queue.pushed)
    && before.queue.popped <= after.queue.popped <= |after.queue.pushed|
    && heard == after.queue.pushed[before.queue.popped..after.queue.popped]
    && after.cells == before.cells + SoundRun(channels, sampleRate, start, offset, before.queue.popped, |heard|)
  }

  lemma PlaysNothing(channels: nat, sampleRate: nat, start: real, offset: nat, turn: Turn)
    requires channels >= 1 && sampleRate >= 1 && TurnOk(channels, turn)
    ensures Plays(channels, sampleRate, start, offset, turn, turn, [])
  {
    assert turn.cells == turn.cells + SoundRun(channels, sampleRate, start, offset, turn.queue.popped, 0);
  }

  lemma PlaysTwice(channels: nat, sampleRate: nat, start: real, offset: nat, a: Turn, b: Turn, c: Turn,
                   first: seq<Sample>, second: seq<Sample>)
    requires channels >= 1 && sampleRate >= 1
    requires Plays(channels, sampleRate, start, offset, a, b, first)
    requires Plays(channels, sampleRate, start, offset + |first|, b, c, second)
    ensures Plays(channels, sampleRate, start, offset, a, c, first + second)
    ensures Somes(first + second) == Somes(first) + Somes(second)
  {
    hide SoundRun;
    SoundRunsJoin(channels, sampleRate, start, offset, a.queue.popped, |first|, |second|);
    var s := c.queue.pushed;
    assert first == s[a.queue.popped..b.queue.popped];
    assert s[a.queue.popped..c.queue.popped] == s[a.queue.popped..b.queue.popped] + s[b.queue.popped..c.queue.popped];
    assert (a.cells + SoundRun(channels, sampleRate, start, offset, a.queue.popped, |first|))
           + SoundRun(channels, sampleRate, start, offset + |first|, b.queue.popped, |second|)
        == a.cells + (SoundRun(channels, sampleRate, start, offset, a.queue.popped, |first|)
           + SoundRun(channels, sampleRate, start, offset + |first|, b.queue.popped, |second|));
  }

  /** The last sample of a turn that played on is heard where the segment ends. */
  lemma PlaysUntil(channels: nat, sampleRate: nat, start: real, offset: nat, before: Turn, after: Turn,
                   heard: seq<Sample>)
    requires channels >= 1 && sampleRate >= 1 && TurnOk(channels, before)
    requires Plays(channels, sampleRate, start, offset, before, after, heard)
    ensures LastEnd(after.cells)
         == if heard == [] then LastEnd(before.cells) else Some(EndAfter(channels, sampleRate, start, offset + |heard|))
  {
    hide SoundRun, EndAfter, LastEnd;
    SoundRunIsFaithful(channels, sampleRate, start, offset, before.cells, |heard|);
  }

  /** However a segment is cut into chunks, it ends on a frame: either the buffer, which holds whole
      frames, is full, or the queue, which was pushed whole frames, is drained. */
  lemma SegmentEndsOnAFrame(channels: nat, queue: Queue, first: nat, consumed: nat, room: nat)
    requires channels >= 1 && Aligned(channels, queue)
    requires first % channels == 0 && room % channels == 0 && queue.popped == first + consumed
    requires consumed == room || queue.Drained()
    ensures consumed % channels == 0
  {
    AlignedSum(|queue.pushed|, first, channels);
  }

  /** A later moment of the same run: turns that were over are as they were, and the one that was
      playing has only gone on. */
  ghost predicate Continues(before: seq<Turn>, after: seq<Turn>) {
    && 0 < |before| <= |after|
    && (forall i :: 0 <= i < |before| - 1 ==> after[i] == before[i])
    && Went(before[|before| - 1], after[|before| - 1])
  }

  ghost predicate Went(before: Turn, after: Turn) {
    && after.pipeline == before.pipeline
    && before.queue.pushed <= after.queue.pushed && before.queue.popped <= after.queue.popped
    && (before.queue.finished ==> after.queue.finished && after.queue.pushed == before.queue.pushed)
    && before.cells <= after.cells
    && (before.report.Some? ==> after.report == before.report)
  }

  lemma ContinuesOn(first: seq<Turn>, second: seq<Turn>, third: seq<Turn>)
    requires Continues(first, second) && Continues(second, third)
    ensures Continues(first, third)
  {
    var n := |first| - 1;
    if n < |second| - 1 {
      assert third[n] == second[n];
    }
  }

  lemma ContinuesItself(turns: seq<Turn>)
    requires turns != []
    ensures Continues(turns, turns)
  {
  }

  lemma TurnKept(before: seq<Turn>, after: seq<Turn>, i: nat)
    requires Continues(before, after) && i < |before|
    ensures i < |after| && after[i].pipeline == before[i].pipeline && (i < |before| - 1 ==> after[i] == before[i])
    ensures before[i].report.Some? ==> after[i].report == before[i].report
    ensures i == |before| - 1 && before[i].queue.Ended() && after[i].queue.popped <= |after[i].queue.pushed|
      ==> after[i].queue.Ended()
  {
  }

  lemma WentOn(past: seq<Turn>, before: Turn, after: Turn)
    requires Went(before, after)
    ensures Continues(past + [before], past + [after])
  {
  }

  lemma MovedOn(past: seq<Turn>, before: Turn, over: Turn, next: Turn)
    requires Went(before, over)
    ensures Continues(past + [before], past + [over] + [next])
  {
  }

  ghost predicate Distinct(turns: seq<Turn>) {
    forall i, j :: 0 <= i < j < |turns| ==> turns[i].pipeline != turns[j].pipeline
  }

  /** The samples each pipeline has played. */
  function PlayedIn(turns: seq<Turn>, p: PipelineId): nat {
    if turns == [] then 0
    else if turns[|turns| - 1].pipeline == p then turns[|turns| - 1].queue.popped
    else PlayedIn(turns[..|turns| - 1], p)
  }

  lemma {:induction false} PlayedAt(turns: seq<Turn>, p: PipelineId)
    ensures PlayedIn(turns, p) == 0
         || exists i :: 0 <= i < |turns| && turns[i].pipeline == p && turns[i].queue.popped == PlayedIn(turns, p)
    ensures Distinct(turns) ==>
      forall i :: 0 <= i < |turns| && turns[i].pipeline == p ==> turns[i].queue.popped == PlayedIn(turns, p)
  {
    if turns != [] {
      var rest := turns[..|turns| - 1];
      PlayedAt(rest, p);
      if turns[|turns| - 1].pipeline != p && PlayedIn(rest, p) != 0 {
        var i :| 0 <= i < |rest| && rest[i].pipeline == p && rest[i].queue.popped == PlayedIn(rest, p);
        assert turns[i] == rest[i];
      }
    }
  }

  lemma PlayedNeverShrinks(before: seq<Turn>, after: seq<Turn>, p: PipelineId)
    requires Continues(before, after) && Distinct(after)
    ensures PlayedIn(before, p) <= PlayedIn(after, p)
  {
    PlayedAt(before, p);
    PlayedAt(after, p);
  }

  // ---- Reported positions ----

  /** A span of frames the callback played from one pipeline, and when its first is heard. */
  datatype PositionUpdate = PositionUpdate(pipeline: PipelineId, startFrame: nat, endFrame: nat, playbackTime: real)

  /** Whole frames of `sampleRate` in a time that has passed. */
  function ElapsedFrames(elapsed: real, sampleRate: nat): nat {
    if elapsed < 0.0 then 0 else (elapsed * sampleRate as real).Floor
  }

  function PlayedFramePosition(update: PositionUpdate, now: real, sampleRate: nat, maxFrames: Option<nat>,
                               last: nat): (p: nat)
    ensures last <= p
    ensures update.startFrame <= update.endFrame ==> p <= Larger(last, update.endFrame)
    ensures last <= update.startFrame <= update.endFrame && maxFrames == None && update.playbackTime <= now ==>
      update.startFrame <= p
    ensures maxFrames.Some? && last <= maxFrames.value ==> p <= maxFrames.value
  {
    var elapsed := if now < update.playbackTime then 0 else ElapsedFrames(now - update.playbackTime, sampleRate);
    var position := Smaller(update.startFrame + elapsed, update.endFrame);
    var capped := if maxFrames.Some? then Smaller(position, maxFrames.value) else position;
    Larger(last, capped)
  }

  /** What a position is: the frames of the span that have had the time to be heard, and all of them in the end, at most
      the length given, and never less than the last position. */
  lemma PositionByTheClock(update: PositionUpdate, now: real, sampleRate: nat, maxFrames: Option<nat>, last: nat)
    returns (frames: nat)
    requires update.startFrame <= update.endFrame
    ensures update.startFrame <= frames <= update.endFrame
    ensures now <= update.playbackTime ==> frames == update.startFrame
    ensures now >= update.playbackTime ==>
      && (frames - update.startFrame) as real <= (now - update.playbackTime) * sampleRate as real
      && (frames < update.endFrame ==>
            (now - update.playbackTime) * sampleRate as real < (frames - update.startFrame + 1) as real)
    ensures PlayedFramePosition(update, now, sampleRate, maxFrames, last)
         == Larger(last, if maxFrames.Some? then Smaller(frames, maxFrames.value) else frames)
  {
    if now < update.playbackTime {
      return update.startFrame;
    }
    var time := now - update.playbackTime;
    TimeTimesRate(time, sampleRate);
    var passed := time * sampleRate as real;
    assert passed.Floor as real <= passed < passed.Floor as real + 1.0;
    frames := Smaller(update.startFrame + passed.Floor, update.endFrame);
  }

  lemma TimeTimesRate(time: real, rate: nat)
    requires time >= 0.0
    ensures time * rate as real >= 0.0
    ensures time == 0.0 ==> time * rate as real == 0.0
  {
  }

  /** The position a report gives only moves forward with the clock. */
  lemma PositionFollowsTheClock(update: PositionUpdate, sooner: real, later: real, sampleRate: nat,
                                maxFrames: Option<nat>, last: nat)
    requires sooner <= later
    ensures PlayedFramePosition(update, sooner, sampleRate, maxFrames, last)
         <= PlayedFramePosition(update, later, sampleRate, maxFrames, last)
  {
    if update.playbackTime <= sooner {
      ElapsedGrows(sooner - update.playbackTime, later - update.playbackTime, sampleRate);
    }
  }

  lemma ElapsedGrows(a: real, b: real, sampleRate: nat)
    requires 0.0 <= a <= b
    ensures 0 <= ElapsedFrames(a, sampleRate) <= ElapsedFrames(b, sampleRate)
  {
    var r := sampleRate as real;
    assert 0.0 <= a * r <= b * r;
    assert (a * r).Floor as real <= a * r && b * r < (b * r).Floor as real + 1.0;
    assert (a * r).Floor as real < ((b * r).Floor + 1) as real;
  }
}
