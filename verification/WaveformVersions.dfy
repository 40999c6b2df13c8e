/** What becomes of a request for a file's waveform, over every way the worker may go on: exactly when a job is taken up
    for it, and exactly when what is shown is of the version that was loaded. */
module WaveformVersions {
  import opened Options
  import opened WaveformService

  predicate AtRest(s: State) { s.running == None && s.pending == None }

  lemma {:induction false} RunIsOk(s: State, steps: seq<Step>)
    requires Ok(s) && CanRun(s, steps) && ByWorker(steps)
    ensures Ok(Run(s, steps)) && KeepsTheLoad(s, Run(s, steps))
    decreases |steps|
  {
    hide Ok, Enabled, After;
    if steps != [] {
      OkKept(s, steps[0]);
      WorkerKeepsTheLoad(s, steps[0]);
      RunIsOk(After(s, steps[0]), steps[1..]);
    }
  }

  // ---- Served by a job of its own ----

  /** With nothing waiting the worker takes nothing up. */
  lemma {:induction false} NothingTakenUp(s: State, steps: seq<Step>)
    requires CanRun(s, steps) && ByWorker(steps) && s.pending == None && !s.notes.since && !s.notes.servedSince
    ensures TakesUp !in steps && !Run(s, steps).notes.servedSince
    decreases |steps|
  {
    if steps != [] {
      hide Run, AfterPublish;
      NothingWaits(s, steps[0]);
      NothingTakenUp(After(s, steps[0]), steps[1..]);
      RunFirst(s, steps);
    }
  }

  lemma NothingWaits(s: State, step: Step)
    requires Enabled(s, step) && WorkerStep(step) && s.pending == None && !s.notes.since && !s.notes.servedSince
    ensures var t := After(s, step);
            step != TakesUp && t.pending == None && !t.notes.since && !t.notes.servedSince
  {
  }

  lemma RunFirst(s: State, steps: seq<Step>)
    requires CanRun(s, steps) && steps != []
    ensures Run(s, steps) == Run(After(s, steps[0]), steps[1..]) && steps == [steps[0]] + steps[1..]
  {
  }

  /** What waits goes on waiting until it is taken up. */
  lemma {:induction false} TakenUpOrWaiting(s: State, steps: seq<Step>)
    requires CanRun(s, steps) && ByWorker(steps) && s.pending.Some?
    ensures TakesUp in steps || Run(s, steps).pending == s.pending
    decreases |steps|
  {
    if steps != [] && steps[0] != TakesUp {
      hide Run, AfterPublish;
      RunFirst(s, steps);
      TakenUpOrWaiting(After(s, steps[0]), steps[1..]);
    }
  }

  /** However the worker goes on until it rests, a request is served by a job that was taken up after it exactly if it
      found none for its file in flight that was not cancelled. */
  lemma ServedByItsOwnJobExactly(s: State, path: Path, steps: seq<Step>)
    requires Ok(s) && !s.closed && Enabled(s, Requested(path)) && ByWorker(steps)
    requires CanRun(After(s, Requested(path)), steps) && AtRest(Run(After(s, Requested(path)), steps))
    ensures TakesUp in steps <==> !RunsFor(s.running, path)
    ensures Run(After(s, Requested(path)), steps).notes.servedSince <==> !RunsFor(s.running, path)
  {
    var r := After(s, Requested(path));
    OkKept(s, Requested(path));
    RunIsOk(r, steps);
    hide Run;
    if RunsFor(s.running, path) {
      NothingTakenUp(r, steps);
    } else {
      TakenUpOrWaiting(r, steps);
    }
  }

  // ---- The version that is shown ----

  predicate Right(s: State) { s.value.Some? && s.notes.shown == s.notes.loaded }

  predicate Wrong(s: State) { s.value.Some? && s.notes.shown != s.notes.loaded }

  predicate ForTheLoaded(s: State) { s.running.Some? && s.file == Some(s.running.value.path) }

  /** The job in flight has read another version of the loaded file than was loaded, and may publish it. */
  predicate MayShowOther(s: State) {
    && ForTheLoaded(s) && HasMore(s.running.value.stage)
    && s.notes.loaded != Some(s.running.value.stage.stamp)
  }

  /** The job in flight may publish the version that was loaded. */
  predicate MayShowLoaded(s: State) {
    ForTheLoaded(s)
    && (s.running.value.stage == Unread
        || (HasMore(s.running.value.stage) && s.notes.loaded == Some(s.running.value.stage.stamp)))
  }

  /** The loaded file is not replaced again: whoever reads its stamp finds the version that was loaded. */
  predicate ReadsLoaded(s: State, step: Step) {
    step.ReadsStamp? && ForTheLoaded(s) ==> step.stamp == s.notes.loaded
  }

  predicate Unchanged(s: State, steps: seq<Step>)
    requires CanRun(s, steps)
    decreases |steps|
  {
    steps == [] || (ReadsLoaded(s, steps[0]) && Unchanged(After(s, steps[0]), steps[1..]))
  }

  /** One way the worker may go on while the loaded file stays as it is. */
  predicate Continues(s: State, steps: seq<Step>) {
    ByWorker(steps) && CanRun(s, steps) && Unchanged(s, steps)
  }

  lemma FirstOf(s: State, steps: seq<Step>)
    requires Continues(s, steps) && steps != []
    ensures Enabled(s, steps[0]) && WorkerStep(steps[0]) && ReadsLoaded(s, steps[0])
    ensures Continues(After(s, steps[0]), steps[1..]) && Run(s, steps) == Run(After(s, steps[0]), steps[1..])
  {
  }

  lemma Before(s: State, step: Step, steps: seq<Step>)
    requires Enabled(s, step) && WorkerStep(step) && ReadsLoaded(s, step) && Continues(After(s, step), steps)
    ensures Continues(s, [step] + steps) && Run(s, [step] + steps) == Run(After(s, step), steps)
  {
    assert ([step] + steps)[1..] == steps;
  }

  lemma NoMore(s: State)
    ensures Continues(s, []) && Run(s, []) == s
  {
  }

  lemma StaysRight(s: State, step: Step)
    requires Enabled(s, step) && WorkerStep(step) && ReadsLoaded(s, step) && !MayShowOther(s)
    ensures var t := After(s, step);
            && !MayShowOther(t) && (!Wrong(s) ==> !Wrong(t)) && (Right(s) ==> Right(t))
            && (step.Publishes? && ForTheLoaded(s) && s.playbackId.Some? ==> Right(t))
  {
    hide WithRemembered;
  }

  lemma {:induction false} NeverWrong(s: State, steps: seq<Step>)
    requires Continues(s, steps) && !Wrong(s) && !MayShowOther(s)
    ensures !Wrong(Run(s, steps))
    decreases |steps|
  {
    if steps != [] {
      FirstOf(s, steps);
      StaysRight(s, steps[0]);
      hide *;
      NeverWrong(After(s, steps[0]), steps[1..]);
    }
  }

  /** After a request for the loaded file another version of it is never shown, however the worker goes on, exactly if
      none is shown yet and no job in flight, cancelled or not, has read one that it may still publish. */
  lemma NeverAnotherVersionExactly(s: State, path: Path)
    requires Ok(s) && s.file == Some(path) && Enabled(s, Requested(path))
    ensures (forall steps :: Continues(After(s, Requested(path)), steps) ==>
               !Wrong(Run(After(s, Requested(path)), steps)))
            <==> !Wrong(s) && !MayShowOther(s)
  {
    var r := After(s, Requested(path));
    RequestKeepsTheTopic(s, path);
    hide Run, After, AfterPublish;
    if !Wrong(s) && !MayShowOther(s) {
      forall steps | Continues(r, steps) ensures !Wrong(Run(r, steps)) {
        NeverWrong(r, steps);
      }
    } else if Wrong(s) {
      NoMore(r);
      assert Continues(r, []) && Wrong(Run(r, []));
    } else {
      PublishesAnother(r);
      assert Continues(r, [Publishes(0, true)]) && Wrong(Run(r, [Publishes(0, true)]));
    }
  }

  lemma RequestKeepsTheTopic(s: State, path: Path)
    requires Ok(s) && Enabled(s, Requested(path))
    ensures var r := After(s, Requested(path));
            && Wrong(r) == Wrong(s) && Right(r) == Right(s) && MayShowOther(r) == MayShowOther(s)
            && MayShowLoaded(r) == MayShowLoaded(s) && r.file == s.file && r.closed == s.closed
            && r.notes.loaded == s.notes.loaded && (r.file.Some? ==> r.playbackId.Some?)
            && (r.running.Some? <==> s.running.Some?)
            && r.pending == if RunsFor(s.running, path) then None else Some(path)
  {
  }

  lemma PublishesAnother(s: State)
    requires MayShowOther(s) && s.playbackId.Some?
    ensures Continues(s, [Publishes(0, true)]) && Wrong(Run(s, [Publishes(0, true)]))
  {
    var step := Publishes(0, true);
    NoMore(After(s, step));
    Before(s, step, []);
    assert [step] + [] == [step];
    hide Run, Continues, WithRemembered;
  }

  // ---- At rest ----

  /** The worker may come to rest with the loaded version shown. */
  ghost predicate CanEndRight(s: State) {
    exists steps :: Continues(s, steps) && AtRest(Run(s, steps)) && Right(Run(s, steps))
  }

  lemma EndsRightBy(s: State, steps: seq<Step>)
    requires Continues(s, steps) && AtRest(Run(s, steps)) && Right(Run(s, steps))
    ensures CanEndRight(s)
  {
  }

  lemma EndsRightBehind(s: State, step: Step)
    requires Enabled(s, step) && WorkerStep(step) && ReadsLoaded(s, step) && CanEndRight(After(s, step))
    ensures CanEndRight(s)
  {
    var t := After(s, step);
    var steps :| Continues(t, steps) && AtRest(Run(t, steps)) && Right(Run(t, steps));
    hide Right, AtRest, After, Run, Continues;
    Before(s, step, steps);
    EndsRightBy(s, [step] + steps);
  }

  lemma EndsRightNow(s: State)
    requires s.pending == None && Right(s)
    ensures CanEndRight(s)
  {
    NoMore(s);
    if s.running == None {
      EndsRightBy(s, []);
    } else {
      NoMore(After(s, Ends));
      EndsRightBy(After(s, Ends), []);
      EndsRightBehind(s, Ends);
    }
  }

  lemma JobEndsRight(s: State)
    requires s.pending == None && MayShowLoaded(s) && s.playbackId.Some? && s.notes.loaded.Some?
    ensures CanEndRight(s)
  {
    hide CanEndRight, WithRemembered;
    if s.running.value.stage == Unread {
      var read := ReadsStamp(s.notes.loaded);
      PublishEndsRight(After(s, read));
      EndsRightBehind(s, read);
    } else {
      PublishEndsRight(s);
    }
  }

  lemma PublishEndsRight(s: State)
    requires s.pending == None && ForTheLoaded(s) && s.playbackId.Some? && HasMore(s.running.value.stage)
    requires s.notes.loaded == Some(s.running.value.stage.stamp)
    ensures CanEndRight(s)
  {
    hide CanEndRight, WithRemembered;
    var step := Publishes(0, true);
    EndsRightNow(After(s, step));
    EndsRightBehind(s, step);
  }

  lemma WaitingEndsRight(s: State)
    requires !s.closed && s.pending.Some? && s.pending == s.file && s.playbackId.Some? && s.notes.loaded.Some?
    ensures CanEndRight(s)
  {
    hide CanEndRight;
    if s.running == None {
      JobEndsRight(After(s, TakesUp));
      EndsRightBehind(s, TakesUp);
    } else {
      var t := After(s, Ends);
      JobEndsRight(After(t, TakesUp));
      EndsRightBehind(t, TakesUp);
      EndsRightBehind(s, Ends);
    }
  }

  /** A job that has read another version, or has nothing more to publish, never leads to the loaded one. */
  lemma {:induction false} NeverRight(s: State, steps: seq<Step>)
    requires Continues(s, steps) && s.pending == None && !Right(s) && !MayShowLoaded(s)
    ensures !Right(Run(s, steps))
    decreases |steps|
  {
    if steps != [] {
      FirstOf(s, steps);
      StaysFar(s, steps[0]);
      hide *;
      NeverRight(After(s, steps[0]), steps[1..]);
    }
  }

  lemma StaysFar(s: State, step: Step)
    requires Enabled(s, step) && WorkerStep(step) && s.pending == None && !Right(s) && !MayShowLoaded(s)
    ensures var t := After(s, step);
            t.pending == None && !Right(t) && !MayShowLoaded(t)
  {
    hide WithRemembered;
  }

  /** After a request for the loaded file the worker can come to rest with the version that was loaded shown, exactly if
      it is shown already, or no job for the file runs uncancelled, or the one that does may still publish it. */
  lemma CanEndRightExactly(s: State, path: Path)
    requires Ok(s) && !s.closed && s.file == Some(path) && s.notes.loaded.Some? && Enabled(s, Requested(path))
    ensures CanEndRight(After(s, Requested(path)))
            <==> Right(s) || !RunsFor(s.running, path) || MayShowLoaded(s)
  {
    var r := After(s, Requested(path));
    RequestKeepsTheTopic(s, path);
    hide Run, After, Continues, Right, MayShowLoaded;
    if !RunsFor(s.running, path) {
      WaitingEndsRight(r);
    } else if Right(s) {
      EndsRightNow(r);
    } else if MayShowLoaded(s) {
      JobEndsRight(r);
    } else {
      forall steps | Continues(r, steps) ensures !Right(Run(r, steps)) {
        NeverRight(r, steps);
      }
    }
  }

  /** A job taken up in this run publishes something. */
  predicate PublishesAfterTakingUp(steps: seq<Step>) {
    exists i, j :: 0 <= i < j < |steps| && steps[i] == TakesUp && steps[j].Publishes?
  }

  /** A job of the loaded file's own: with what it publishes the loaded version is shown, and stays. */
  lemma {:induction false} OwnJobIsRight(s: State, steps: seq<Step>)
    requires Continues(s, steps) && s.pending == None && !MayShowOther(s) && s.playbackId.Some?
    requires s.running.Some? ==> ForTheLoaded(s)
    requires Right(s) || exists j :: 0 <= j < |steps| && steps[j].Publishes?
    ensures Right(Run(s, steps))
    decreases |steps|
  {
    if steps == [] {
      NoMore(s);
    } else {
      FirstOf(s, steps);
      StaysRight(s, steps[0]);
      StaysItsOwn(s, steps[0]);
      if !Right(After(s, steps[0])) {
        var j :| 0 <= j < |steps| && steps[j].Publishes?;
        assert steps[1..][j - 1].Publishes?;
      }
      hide Continues, Run, After, Right, MayShowOther, ForTheLoaded;
      OwnJobIsRight(After(s, steps[0]), steps[1..]);
    }
  }

  lemma StaysItsOwn(s: State, step: Step)
    requires Enabled(s, step) && WorkerStep(step) && s.pending == None && (s.running.Some? ==> ForTheLoaded(s))
    ensures var t := After(s, step);
            && t.pending == None && (t.running.Some? ==> ForTheLoaded(t)) && t.playbackId == s.playbackId
            && (step.Publishes? ==> ForTheLoaded(s))
  {
    hide WithRemembered;
  }

  lemma {:induction false} WaitingIsRight(s: State, steps: seq<Step>)
    requires Continues(s, steps) && s.pending.Some? && s.pending == s.file && s.playbackId.Some?
    requires PublishesAfterTakingUp(steps)
    ensures Right(Run(s, steps))
    decreases |steps|
  {
    FirstOf(s, steps);
    var i, j :| 0 <= i < j < |steps| && steps[i] == TakesUp && steps[j].Publishes?;
    assert steps[1..][j - 1].Publishes?;
    hide Continues, Run, Right;
    if steps[0] == TakesUp {
      OwnJobIsRight(After(s, steps[0]), steps[1..]);
    } else {
      assert steps[1..][i - 1] == TakesUp;
      KeepsWaiting(s, steps[0]);
      WaitingIsRight(After(s, steps[0]), steps[1..]);
    }
  }

  lemma KeepsWaiting(s: State, step: Step)
    requires Enabled(s, step) && WorkerStep(step) && step != TakesUp
    ensures After(s, step).pending == s.pending && After(s, step).file == s.file
      && After(s, step).playbackId == s.playbackId
  {
  }

  /** A request for the loaded file that joins no job ends with the loaded version shown, whatever a cancelled job still
      published before, if the job taken up for it publishes anything at all. */
  lemma OwnJobShowsTheLoaded(s: State, path: Path, steps: seq<Step>)
    requires Ok(s) && s.file == Some(path) && Enabled(s, Requested(path)) && !RunsFor(s.running, path)
    requires Continues(After(s, Requested(path)), steps) && PublishesAfterTakingUp(steps)
    ensures Right(Run(After(s, Requested(path)), steps))
  {
    RequestKeepsTheTopic(s, path);
    WaitingIsRight(After(s, Requested(path)), steps);
  }

  // ---- Runs that miss it ----

  function InWork(path: Path, first: Stamp): State {
    State(Some(Job(path, false, HasRead(first))), None, false, Some(1), Some(path), None, 1, map[],
          Notes(Some(first), None, Some(path), false, false, true, false, {}, false))
  }

  /** A file is loaded, and a job for it has found out its version. */
  method FirstVersionInWork(path: Path, first: Stamp) returns (service: Service)
    ensures fresh(service) && service.Valid() && service.Now() == InWork(path, first)
  {
    hide Ok;
    service := new Service();
    var missing := service.Show(1, path, Some(first));
    service.Request(path);
    var taken := service.NextJob();
    service.ReadFileStamp(Some(first));
  }

  lemma AfterJobPublished(path: Path, first: Stamp, second: Stamp, picture: Picture)
    requires first != second
    ensures var made := Published(path, first, picture);
            Enabled(InWork(path, first), Publishes(picture, true))
            && var a := After(InWork(path, first), Publishes(picture, true));
               !a.notes.loading && Enabled(a, Shows(2, path, Some(second)))
               && var b := After(a, Shows(2, path, Some(second)));
                  Enabled(b, Requested(path))
                  && var c := After(b, Requested(path));
                     Enabled(c, Ends)
                     && After(c, Ends)
                        == State(None, None, false, Some(2), Some(path), None, 3,
                                 map[path := Remembered(first, picture)],
                                 Notes(Some(second), None, Some(path), true, true, false, false, {made}, false))
  {
  }

  lemma BeforeJobPublished(path: Path, first: Stamp, second: Stamp, picture: Picture)
    requires first != second
    ensures var made := Published(path, first, picture);
            Enabled(InWork(path, first), Shows(2, path, Some(second)))
            && var a := After(InWork(path, first), Shows(2, path, Some(second)));
               Enabled(a, Requested(path))
               && var b := After(a, Requested(path));
                  b.running == Some(Job(path, false, HasRead(first))) && Enabled(b, Publishes(picture, true))
                  && var c := After(b, Publishes(picture, true));
                     Enabled(c, Ends)
                     && After(c, Ends)
                        == State(None, None, false, Some(2), Some(path), Some(Shown(2, picture)), 3,
                                 map[path := Remembered(first, picture)],
                                 Notes(Some(second), Some(first), Some(path), true, true, false, false, {made}, false))
  {
  }

  /** A file is loaded and its waveform published; before the job is over the file is replaced and loaded again. The new
      request joins the job that has nothing more to publish: then no work is left, and nothing is shown. */
  method ReplacedBehindTheJob(path: Path, first: Stamp, second: Stamp, picture: Picture) returns (service: Service)
    requires first != second
    ensures service.Valid() && !service.closed && !service.notes.loading && AtRest(service.Now())
    ensures service.playbackId == Some(2) && service.file == Some(path) && service.notes.loaded == Some(second)
    ensures service.value == None && service.notes.served && !service.notes.servedSince
  {
    hide Ok, After, Enabled;
    service := FirstVersionInWork(path, first);
    AfterJobPublished(path, first, second, picture);
    service.PublishNext(picture, true);
    var missing := service.Show(2, path, Some(second));
    service.Request(path);
    service.FinishJob();
  }

  /** The same, but the file is replaced and loaded before the job publishes: what it made of the first version is then
      shown for the second, and no work is left. */
  method FirstVersionShown(path: Path, first: Stamp, second: Stamp, picture: Picture) returns (service: Service)
    requires first != second
    ensures service.Valid() && !service.closed && !service.notes.loading && AtRest(service.Now())
    ensures service.playbackId == Some(2) && service.file == Some(path) && service.notes.loaded == Some(second)
    ensures service.value == Some(Shown(2, picture)) && service.notes.shown == Some(first)
    ensures path in service.ready && service.ready[path] == Remembered(first, picture)
  {
    hide Ok, After, Enabled;
    service := FirstVersionInWork(path, first);
    BeforeJobPublished(path, first, second, picture);
    var missing := service.Show(2, path, Some(second));
    service.Request(path);
    service.PublishNext(picture, true);
    service.FinishJob();
  }
}
