/** The slots of a buffer: which cell of which turn each one is, and when it is heard. */
module Slots {
  import opened Options
  import opened Turns

  function CellsOf(turns: seq<Turn>): seq<Cell> {
    if turns == [] then [] else CellsOf(turns[..|turns| - 1]) + turns[|turns| - 1].cells
  }

  lemma {:induction false} CellsJoin(a: seq<Turn>, b: seq<Turn>)
    ensures CellsOf(a + b) == CellsOf(a) + CellsOf(b)
  {
    if b == [] {
      assert a + b == a;
    } else {
      assert (a + b)[..|a + b| - 1] == a + b[..|b| - 1];
      CellsJoin(a, b[..|b| - 1]);
    }
  }

  /** The cells that were played between two moments of a run. */
  ghost function Added(before: seq<Turn>, after: seq<Turn>): seq<Cell>
    requires Continues(before, after)
  {
    after[|before| - 1].cells[|before[|before| - 1].cells|..] + CellsOf(after[|before|..])
  }

  lemma AddedJoins(a: seq<Turn>, b: seq<Turn>, c: seq<Turn>)
    requires Continues(a, b) && Continues(b, c)
    ensures Continues(a, c) && Added(a, c) == Added(a, b) + Added(b, c)
  {
    ContinuesOn(a, b, c);
    if |a| == |b| {
      assert b[|a|..] == [] && CellsOf([]) == [];
      AddedInTurn(a[|a| - 1].cells, b[|a| - 1].cells, c[|a| - 1].cells);
    } else {
      LaterTurnsAdded(a, b, c);
      Regroup(a[|a| - 1].cells, b[|a| - 1].cells, CellsOf(b[|a|..|b| - 1]), b[|b| - 1].cells, c[|b| - 1].cells,
              CellsOf(c[|b|..]));
    }
  }

  lemma LaterTurnsAdded(a: seq<Turn>, b: seq<Turn>, c: seq<Turn>)
    requires Continues(a, b) && Continues(b, c) && |a| < |b|
    ensures c[|a| - 1] == b[|a| - 1]
    ensures CellsOf(b[|a|..]) == CellsOf(b[|a|..|b| - 1]) + b[|b| - 1].cells
    ensures CellsOf(c[|a|..]) == CellsOf(b[|a|..|b| - 1]) + (c[|b| - 1].cells + CellsOf(c[|b|..]))
  {
    CellsSince(b, |a|);
    var between, last, rest := b[|a|..|b| - 1], c[|b| - 1], c[|b|..];
    LaterTurns(a, b, c);
    hide CellsOf, Continues;
    CellsJoin(between, [last] + rest);
    CellsJoin([last], rest);
    OneTurn(last);
  }

  lemma LaterTurns(a: seq<Turn>, b: seq<Turn>, c: seq<Turn>)
    requires Continues(b, c) && 0 < |a| < |b|
    ensures c[|a| - 1] == b[|a| - 1]
    ensures c[|a|..] == b[|a|..|b| - 1] + ([c[|b| - 1]] + c[|b|..])
  {
  }

  lemma Regroup(a: seq<Cell>, b: seq<Cell>, between: seq<Cell>, now: seq<Cell>, later: seq<Cell>, rest: seq<Cell>)
    requires a <= b && now <= later
    ensures b[|a|..] + (between + (later + rest)) == (b[|a|..] + (between + now)) + (later[|now|..] + rest)
  {
    assert later == now + later[|now|..];
  }

  lemma CellsSince(turns: seq<Turn>, from: nat)
    requires from < |turns|
    ensures CellsOf(turns[from..]) == CellsOf(turns[from..|turns| - 1]) + turns[|turns| - 1].cells
  {
    assert turns[from..][..|turns[from..]| - 1] == turns[from..|turns| - 1];
  }

  lemma OneTurn(turn: Turn)
    ensures CellsOf([turn]) == turn.cells
  {
    assert CellsOf([turn][..0]) == [];
  }

  lemma AddedInTurn(a: seq<Cell>, b: seq<Cell>, c: seq<Cell>)
    requires a <= b <= c
    ensures c[|a|..] == b[|a|..] + c[|b|..]
  {
  }

  // ---- When a slot is heard ----

  /** Slot `slot` of a buffer that starts at `start` holds a sample or silence; the frames through it will have been
      heard when its cell says so. */
  ghost predicate SlotIs(channels: nat, sampleRate: nat, start: real, slot: nat, heard: Option<Sample>, cell: Cell)
    requires channels >= 1
  {
    && (heard.Some? <==> cell.Sound?)
    && (cell.Sound? ==> (cell.ends - start) * sampleRate as real == ((slot + 1) / channels) as real)
  }

  /** From one moment to another the slots from `at` on were played, with what is `heard` of them. */
  ghost predicate Fills(channels: nat, sampleRate: nat, start: real, at: nat, heard: seq<Option<Sample>>,
                        before: seq<Turn>, after: seq<Turn>)
    requires channels >= 1
  {
    && Continues(before, after) && |Added(before, after)| == |heard|
    && forall k :: 0 <= k < |heard| ==>
         SlotIs(channels, sampleRate, start, at + k, heard[k], Added(before, after)[k])
  }

  lemma FillsOn(channels: nat, sampleRate: nat, start: real, at: nat, first: seq<Option<Sample>>,
                second: seq<Option<Sample>>, a: seq<Turn>, b: seq<Turn>, c: seq<Turn>)
    requires channels >= 1 && Fills(channels, sampleRate, start, at, first, a, b)
    requires Fills(channels, sampleRate, start, at + |first|, second, b, c)
    ensures Fills(channels, sampleRate, start, at, first + second, a, c)
  {
    AddedJoins(a, b, c);
    hide Added, Continues, SlotIs;
    var heard := first + second;
    forall k | 0 <= k < |heard| ensures SlotIs(channels, sampleRate, start, at + k, heard[k], Added(a, c)[k]) {
      if k >= |first| {
        var j := k - |first|;
        assert heard[k] == second[j] && Added(a, c)[k] == Added(b, c)[j];
        assert SlotIs(channels, sampleRate, start, at + |first| + j, second[j], Added(b, c)[j]);
      } else {
        assert Added(a, c)[k] == Added(a, b)[k];
      }
    }
  }

  lemma FillsGoOn(channels: nat, sampleRate: nat, start: real, at: nat, heard: seq<Option<Sample>>,
                  before: seq<Turn>, after: seq<Turn>)
    requires channels >= 1 && Fills(channels, sampleRate, start, at, heard, before, after)
    ensures Continues(before, after)
  {
  }

  /** Nothing was played; what was declared or reported may have changed, and a turn may have begun. */
  lemma FillsNothing(channels: nat, sampleRate: nat, start: real, at: nat, before: seq<Turn>, after: seq<Turn>)
    requires channels >= 1 && Continues(before, after)
    requires after[|before| - 1].cells == before[|before| - 1].cells
    requires |after| == |before| || (|after| == |before| + 1 && after[|before|].cells == [])
    ensures Fills(channels, sampleRate, start, at, [], before, after)
  {
    if |after| == |before| {
      assert after[|before|..] == [];
    } else {
      assert after[|before|..] == [after[|before|]];
      OneTurn(after[|before|]);
    }
  }

  lemma EndIsOnTime(channels: nat, sampleRate: nat, start: real, samples: nat)
    requires channels >= 1 && sampleRate >= 1
    ensures (EndAfter(channels, sampleRate, start, samples) - start) * sampleRate as real
      == (samples / channels) as real
  {
    var frames, rate := (samples / channels) as real, sampleRate as real;
    assert frames / rate * rate == frames;
  }

  lemma FillsWith(channels: nat, sampleRate: nat, start: real, at: nat, heard: seq<Option<Sample>>, cells: seq<Cell>,
                  before: seq<Turn>, after: seq<Turn>)
    requires channels >= 1 && Continues(before, after) && Added(before, after) == cells && |cells| == |heard|
    requires forall k :: 0 <= k < |heard| ==> SlotIs(channels, sampleRate, start, at + k, heard[k], cells[k])
    ensures Fills(channels, sampleRate, start, at, heard, before, after)
  {
  }

  lemma RunIsOnTime(channels: nat, sampleRate: nat, start: real, at: nat, first: nat, heard: seq<Sample>, k: nat)
    requires channels >= 1 && sampleRate >= 1 && k < |heard|
    ensures var run := SoundRun(channels, sampleRate, start, at, first, |heard|);
            |run| == |heard| && SlotIs(channels, sampleRate, start, at + k, Somes(heard)[k], run[k])
  {
    SoundRunAt(channels, sampleRate, start, at, first, |heard|, k);
    EndIsOnTime(channels, sampleRate, start, at + k + 1);
    hide SoundRun, EndAfter;
  }

  /** A turn that played its queue on fills the slots from `at` on. */
  lemma PlayedFills(channels: nat, sampleRate: nat, start: real, at: nat, past: seq<Turn>, before: Turn, after: Turn,
                    heard: seq<Sample>)
    requires channels >= 1 && sampleRate >= 1 && Went(before, after)
    requires Plays(channels, sampleRate, start, at, before, after, heard)
    ensures Fills(channels, sampleRate, start, at, Somes(heard), past + [before], past + [after])
  {
    WentOn(past, before, after);
    var run := SoundRun(channels, sampleRate, start, at, before.queue.popped, |heard|);
    AddedToLast(past, before, after, run);
    hide Plays, Went, Continues, SoundRun, SlotIs, Added, Fills;
    forall k | 0 <= k < |heard|
      ensures |run| == |heard| && SlotIs(channels, sampleRate, start, at + k, Somes(heard)[k], run[k])
    {
      RunIsOnTime(channels, sampleRate, start, at, before.queue.popped, heard, k);
    }
    RunLength(channels, sampleRate, start, at, before.queue.popped, |heard|);
    FillsWith(channels, sampleRate, start, at, Somes(heard), run, past + [before], past + [after]);
  }

  lemma RunLength(channels: nat, sampleRate: nat, start: real, at: nat, first: nat, count: nat)
    requires channels >= 1 && sampleRate >= 1
    ensures |SoundRun(channels, sampleRate, start, at, first, count)| == count
  {
    if count > 0 {
      SoundRunAt(channels, sampleRate, start, at, first, count, 0);
    }
  }

  lemma AddedToLast(past: seq<Turn>, before: Turn, after: Turn, more: seq<Cell>)
    requires Continues(past + [before], past + [after]) && after.cells == before.cells + more
    ensures Added(past + [before], past + [after]) == more
  {
    assert (past + [after])[|past + [before]|..] == [];
  }

  lemma SilenceFills(channels: nat, sampleRate: nat, start: real, at: nat, past: seq<Turn>, before: Turn, after: Turn,
                     silence: seq<Cell>)
    requires channels >= 1 && Went(before, after) && after.cells == before.cells + silence
    requires forall c :: c in silence ==> c.Quiet?
    ensures Fills(channels, sampleRate, start, at, seq(|silence|, _ => None), past + [before], past + [after])
  {
    WentOn(past, before, after);
    AddedToLast(past, before, after, silence);
    forall k | 0 <= k < |silence| ensures SlotIs(channels, sampleRate, start, at + k, None, silence[k]) {
      assert silence[k] in silence;
    }
    FillsWith(channels, sampleRate, start, at, seq(|silence|, _ => None), silence, past + [before], past + [after]);
  }

  // ---- When an end is reported ----

  /** The last sample among the cells. */
  ghost predicate IsLastSound(cells: seq<Cell>, k: nat) {
    k < |cells| && cells[k].Sound? && forall j :: k < j < |cells| ==> !cells[j].Sound?
  }

  lemma {:induction false} LastSoundEnds(cells: seq<Cell>, k: nat)
    requires IsLastSound(cells, k)
    ensures LastEnd(cells) == Some(cells[k].ends)
  {
    if k < |cells| - 1 {
      LastSoundEnds(cells[..|cells| - 1], k);
    }
  }

  /** Of two turns or one, as a buffer is filled: where a new cell is. */
  lemma NewCellIsAdded(before: seq<Turn>, after: seq<Turn>, i: nat, k: nat) returns (s: nat)
    requires Continues(before, after) && |before| - 1 <= i < |after| && k < |after[i].cells|
    requires i == |before| - 1 ==> |before[i].cells| <= k
    ensures s < |Added(before, after)| && Added(before, after)[s] == after[i].cells[k]
  {
    var first := after[|before| - 1].cells[|before[|before| - 1].cells|..];
    if i == |before| - 1 {
      s := k - |before[i].cells|;
    } else {
      var j := i - |before|;
      var turns := after[|before|..];
      assert turns == turns[..j] + ([turns[j]] + turns[j + 1..]);
      CellsJoin(turns[..j], [turns[j]] + turns[j + 1..]);
      CellsJoin([turns[j]], turns[j + 1..]);
      OneTurn(turns[j]);
      s := |first| + |CellsOf(turns[..j])| + k;
    }
  }

  /** A pipeline whose last sample was played into this buffer, and whose end is reported: what is reported is when that
      sample's slot has been heard. */
  lemma EndOnTime(channels: nat, sampleRate: nat, limit: real, start: real, heard: seq<Option<Sample>>,
                  before: seq<Turn>, after: seq<Turn>, i: nat, k: nat) returns (s: nat)
    requires channels >= 1 && Fills(channels, sampleRate, start, 0, heard, before, after)
    requires |before| - 1 <= i < |after| && IsLastSound(after[i].cells, k)
    requires i == |before| - 1 ==> |before[i].cells| <= k
    requires Truthful(limit, after[i]) && after[i].report.Some? && after[i].cells[k].ends <= limit
    ensures s < |heard| && heard[s].Some? && Added(before, after)[s] == after[i].cells[k]
    ensures after[i].report.value.FinalFrames?
         && (after[i].report.value.endTime - start) * sampleRate as real == ((s + 1) / channels) as real
  {
    s := NewCellIsAdded(before, after, i, k);
    LastSoundEnds(after[i].cells, k);
    assert SlotIs(channels, sampleRate, start, 0 + s, heard[s], Added(before, after)[s]);
  }
}
