/** The Waveform topic and the single slot of analysis work behind it. The service's methods and the worker's run
    one at a time where the original holds a lock, in any order. */
module WaveformService {
  import opened Options

  type Path = string
  type PlaybackId = nat
  /** What tells one version of a file from another. */
  type Stamp = int
  type Picture = int

  /** How far a job is: which version it works on it finds out first, an approximation may be published, and then the
      exact waveform, or the cached one at once. */
  datatype Stage = Unread | HasRead(stamp: Stamp) | Sampled(stamp: Stamp) | Over

  /** The job in flight. */
  datatype Job = Job(path: Path, cancelled: bool, stage: Stage)

  datatype Shown = Shown(playbackId: PlaybackId, picture: Picture)

  datatype Remembered = Remembered(stamp: Stamp, picture: Picture)

  const MEMORY_ENTRIES: nat := 16

  /** A waveform that was published, and the version of the file it is of. */
  datatype Published = Published(path: Path, stamp: Stamp, picture: Picture)

  datatype State = State(
    // The slot of work.
    running: Option<Job>,
    pending: Option<Path>,
    closed: bool,
    // The topic, and the waveforms in memory.
    playbackId: Option<PlaybackId>,
    file: Option<Path>,
    value: Option<Shown>,
    revision: nat,
    ready: map<Path, Remembered>,
    notes: Notes)

  /** What the service does not keep: the version loaded and the version shown; the newest file asked for and whether a
      job for it came to its end; whether that request joined a job in flight, whether the job in flight was taken up
      after it, and whether one that was came to its end; everything ever published; and whether a load has changed the
      topic but not asked for its analysis yet. */
  datatype Notes = Notes(
    loaded: Option<Stamp>,
    shown: Option<Stamp>,
    wanted: Option<Path>,
    served: bool,
    joined: bool,
    since: bool,
    servedSince: bool,
    published: set<Published>,
    loading: bool)

  // ---- Steps ----

  /** `TakesUp` to `Ends` are the worker's. */
  datatype Step =
    | Requested(path: Path)
    | RequestedAhead(path: Path, stamp: Option<Stamp>)
    | Shows(id: PlaybackId, path: Path, stamp: Option<Stamp>)
    | Closes
    | TakesUp
    | ReadsStamp(stamp: Option<Stamp>)
    | Publishes(picture: Picture, exact: bool)
    | Ends

  /** A job for the file that is not cancelled. */
  predicate RunsFor(running: Option<Job>, path: Path) {
    running.Some? && running.value.path == path && !running.value.cancelled
  }

  /** The job has read the file's stamp and has something to publish. */
  predicate HasMore(stage: Stage) { stage.HasRead? || stage.Sampled? }

  predicate InMemory(ready: map<Path, Remembered>, path: Path, stamp: Option<Stamp>) {
    path in ready && stamp == Some(ready[path].stamp)
  }

  predicate Enabled(s: State, step: Step) {
    match step
    case Requested(path) =>
      (s.notes.loading ==> s.file == Some(path)) && (s.file.Some? && s.value == None ==> s.file == Some(path))
    case RequestedAhead(_, _) => true
    case Shows(_, _, _) => !s.notes.loading
    case Closes => true
    case TakesUp => s.running == None && !s.closed && s.pending.Some?
    case ReadsStamp(_) => s.running.Some? && s.running.value.stage == Unread
    case Publishes(_, exact) =>
      s.running.Some? && HasMore(s.running.value.stage) && (exact || s.running.value.stage.HasRead?)
    case Ends => s.running.Some?
  }

  function Cancelled(running: Option<Job>): Option<Job> {
    if running.Some? then Some(running.value.(cancelled := true)) else None
  }

  /** Only the newest request counts: it joins a job for its file, and otherwise waits in place of any other and cancels
      the job in flight. */
  function AfterRequest(s: State, path: Path): State {
    var joins := RunsFor(s.running, path);
    s.(running := if joins then s.running else Cancelled(s.running),
       pending := if joins then None else Some(path),
       notes := s.notes.(wanted := Some(path), served := false, joined := joins, since := false, servedSince := false,
                         loading := false))
  }

  function AfterAhead(s: State, path: Path, stamp: Option<Stamp>): State {
    var needless := stamp == None || InMemory(s.ready, path, stamp) || RunsFor(s.running, path);
    if needless || s.pending.Some? || s.closed then s else s.(pending := Some(path))
  }

  function AfterShow(s: State, id: PlaybackId, path: Path, stamp: Option<Stamp>): State {
    var found := InMemory(s.ready, path, stamp);
    s.(playbackId := Some(id), file := Some(path), revision := s.revision + 1,
       value := if found then Some(Shown(id, s.ready[path].picture)) else None,
       notes := s.notes.(loaded := stamp, shown := if found then stamp else None, loading := !found))
  }

  /** All others are forgotten when the memory is full. */
  function WithRemembered(ready: map<Path, Remembered>, path: Path, entry: Remembered): map<Path, Remembered> {
    if |ready| >= MEMORY_ENTRIES && path !in ready then map[path := entry] else ready[path := entry]
  }

  /** A waveform was published; it is shown if it is of the loaded file. */
  function AfterPublish(s: State, path: Path, stamp: Stamp, picture: Picture): State {
    var shows := s.playbackId.Some? && s.file == Some(path);
    s.(ready := WithRemembered(s.ready, path, Remembered(stamp, picture)),
       value := if shows then Some(Shown(s.playbackId.value, picture)) else s.value,
       revision := if shows then s.revision + 1 else s.revision,
       notes := s.notes.(published := s.notes.published + {Published(path, stamp, picture)},
                         shown := if shows then Some(stamp) else s.notes.shown))
  }

  function AfterEnd(s: State): State
    requires s.running.Some?
  {
    var serves := s.notes.wanted.Some? && RunsFor(s.running, s.notes.wanted.value);
    s.(running := None,
       notes := s.notes.(served := s.notes.served || serves,
                         servedSince := s.notes.servedSince || (serves && s.notes.since)))
  }

  function After(s: State, step: Step): State
    requires Enabled(s, step)
  {
    match step
    case Requested(path) => AfterRequest(s, path)
    case RequestedAhead(path, stamp) => AfterAhead(s, path, stamp)
    case Shows(id, path, stamp) => AfterShow(s, id, path, stamp)
    case Closes => s.(closed := true, running := Cancelled(s.running))
    case TakesUp =>
      s.(running := Some(Job(s.pending.value, false, Unread)), pending := None, notes := s.notes.(since := true))
    case ReadsStamp(stamp) => WithStage(s, if stamp.Some? then HasRead(stamp.value) else Over)
    case Publishes(picture, exact) =>
      var job := s.running.value;
      WithStage(AfterPublish(s, job.path, job.stage.stamp, picture), if exact then Over else Sampled(job.stage.stamp))
    case Ends => AfterEnd(s)
  }

  function WithStage(s: State, stage: Stage): State
    requires s.running.Some?
  {
    s.(running := Some(s.running.value.(stage := stage)))
  }

  // ---- What every step keeps ----

  /** The newest request waits, or runs uncancelled, or ran to its end: in a job taken up after it, unless it joined
      one. */
  ghost predicate Outstanding(s: State) {
    var n := s.notes;
    && (n.wanted.Some? && !s.closed ==> n.served || s.pending == n.wanted || RunsFor(s.running, n.wanted.value))
    && (n.wanted.Some? && !s.closed && !n.joined ==>
          n.servedSince || s.pending == n.wanted || (n.since && RunsFor(s.running, n.wanted.value)))
    && (n.servedSince ==> n.served)
  }

  /** What is shown is a waveform of the loaded Playback's file, under that Playback's id. */
  ghost predicate ShowsTheLoaded(s: State) {
    && (s.playbackId.Some? <==> s.file.Some?)
    && (s.value.Some? <==> s.notes.shown.Some?)
    && (s.value.Some? ==>
          && s.playbackId == Some(s.value.value.playbackId)
          && Published(s.file.value, s.notes.shown.value, s.value.value.picture) in s.notes.published)
  }

  ghost predicate Remembers(s: State) {
    && |s.ready| <= MEMORY_ENTRIES
    && forall p :: p in s.ready ==> Published(p, s.ready[p].stamp, s.ready[p].picture) in s.notes.published
  }

  /** A loaded Playback without a waveform is the one asked for. */
  ghost predicate AskedFor(s: State) {
    s.file.Some? && s.value == None && !s.notes.loading ==> s.notes.wanted == s.file
  }

  ghost predicate Ok(s: State) {
    Outstanding(s) && ShowsTheLoaded(s) && Remembers(s) && AskedFor(s)
  }

  const NEW: State :=
    State(None, None, false, None, None, None, 0, map[],
          Notes(None, None, None, false, false, false, false, {}, false))

  lemma NewIsOk()
    ensures Ok(NEW)
  {
  }

  lemma RememberedMore(s: State, path: Path, stamp: Stamp, picture: Picture)
    requires Remembers(s)
    ensures Remembers(AfterPublish(s, path, stamp, picture))
  {
    var before := if |s.ready| >= MEMORY_ENTRIES && path !in s.ready then map[] else s.ready;
    var after := before[path := Remembered(stamp, picture)];
    assert after == WithRemembered(s.ready, path, Remembered(stamp, picture));
    assert after.Keys == before.Keys + {path};
  }

  lemma PublishIsOk(s: State, path: Path, stamp: Stamp, picture: Picture)
    requires Ok(s)
    ensures Ok(AfterPublish(s, path, stamp, picture))
  {
    RememberedMore(s, path, stamp, picture);
    hide Remembers, WithRemembered;
  }

  lemma StageIsOk(s: State, stage: Stage)
    requires Ok(s) && s.running.Some?
    ensures Ok(WithStage(s, stage))
  {
  }

  lemma OkKept(s: State, step: Step)
    requires Ok(s) && Enabled(s, step)
    ensures Ok(After(s, step))
  {
    match step
    case Publishes(picture, exact) =>
      hide Ok, AfterPublish;
      var job := s.running.value;
      PublishIsOk(s, job.path, job.stage.stamp, picture);
      StageIsOk(AfterPublish(s, job.path, job.stage.stamp, picture), if exact then Over else Sampled(job.stage.stamp));
    case ReadsStamp(stamp) => StageIsOk(s, if stamp.Some? then HasRead(stamp.value) else Over);
    case _ =>
  }

  // ---- The service ----

  class Service {
    // The slot of work.
    var running: Option<Job>
    var pending: Option<Path>
    var closed: bool

    // The topic.
    var playbackId: Option<PlaybackId>
    var file: Option<Path>
    var value: Option<Shown>
    var revision: nat
    /** Waveforms in memory. */
    var ready: map<Path, Remembered>
    ghost var notes: Notes

    ghost function Now(): State
      reads this
    {
      State(running, pending, closed, playbackId, file, value, revision, ready, notes)
    }

    ghost predicate Valid()
      reads this
    {
      Ok(Now())
    }

    constructor ()
      ensures Valid() && Now() == NEW
    {
      running, pending, closed := None, None, false;
      playbackId, file, value, revision, ready := None, None, None, 0, map[];
      notes := Notes(None, None, None, false, false, false, false, {}, false);
      new;
      NewIsOk();
    }

    /** A request for the file that is being analysed joins that job, however far it has come. */
    method Request(path: Path)
      requires Valid() && Enabled(Now(), Requested(path))
      modifies this`running, this`pending, this`notes
      ensures Valid() && Now() == After(old(Now()), Requested(path))
      ensures notes.wanted == Some(path) && !notes.served && !notes.servedSince && !notes.since && !notes.loading
      ensures notes.joined <==> RunsFor(old(running), path)
      ensures notes.joined ==> running == old(running) && pending == None
      ensures !notes.joined ==> pending == Some(path) && (running.Some? <==> old(running).Some?)
      ensures !notes.joined && running.Some? ==> running.value == old(running).value.(cancelled := true)
    {
      hide Ok;
      OkKept(Now(), Requested(path));
      notes := AfterRequest(Now(), path).notes;
      if running.Some? && running.value.path == path && !running.value.cancelled {
        pending := None;
      } else {
        if running.Some? {
          running := Some(running.value.(cancelled := true));
        }
        pending := Some(path);
      }
    }

    /** A request for what may play after this. It cancels and replaces nothing. */
    method RequestAhead(path: Path, stamp: Option<Stamp>)
      requires Valid()
      modifies this`pending
      ensures Valid() && Now() == After(old(Now()), RequestedAhead(path, stamp))
      ensures old(pending).Some? ==> pending == old(pending)
      ensures pending != old(pending) ==>
        pending == Some(path) && stamp.Some? && !closed && !RunsFor(running, path) && !InMemory(ready, path, stamp)
      ensures old(pending) == None ==>
        (pending == Some(path) <==>
         stamp.Some? && !closed && !(path in ready && ready[path].stamp == stamp.value)
         && !(running.Some? && running.value.path == path && !running.value.cancelled))
    {
      hide Ok;
      OkKept(Now(), RequestedAhead(path, stamp));
      if stamp.None? {
        return;
      }
      var isReady := path in ready && ready[path].stamp == stamp.value;
      var inFlight := running.Some? && running.value.path == path && !running.value.cancelled;
      if isReady || inFlight || pending.Some? || closed {
        return;
      }
      pending := Some(path);
    }

    /** A track was loaded. A remembered waveform is shown at once; failing that, an analysis is requested, and the
        worker may act before that. */
    method Loaded(id: PlaybackId, path: Path, stamp: Option<Stamp>)
      requires Valid() && !notes.loading
      modifies this
      ensures Valid() && !notes.loading && playbackId == Some(id) && file == Some(path) && notes.loaded == stamp
      ensures old(revision) < revision
      ensures value.Some? || notes.wanted == Some(path)
      ensures value.Some? ==> value.value.playbackId == id
    {
      var missing := Show(id, path, stamp);
      var steps := WorkerActs();
      if missing {
        Request(path);
      }
    }

    /** The topic's part of a load, under its lock. */
    method Show(id: PlaybackId, path: Path, stamp: Option<Stamp>) returns (missing: bool)
      requires Valid() && !notes.loading
      modifies this`playbackId, this`file, this`value, this`revision, this`notes
      ensures Valid() && Now() == After(old(Now()), Shows(id, path, stamp))
      ensures missing == notes.loading == !InMemory(ready, path, stamp)
      ensures value == if missing then None else Some(Shown(id, ready[path].picture))
      ensures !missing ==> notes.shown == notes.loaded == stamp
    {
      hide Ok;
      OkKept(Now(), Shows(id, path, stamp));
      notes := AfterShow(Now(), id, path, stamp).notes;
      missing := !(path in ready && stamp == Some(ready[path].stamp));
      playbackId, file := Some(id), Some(path);
      value := if missing then None else Some(Shown(id, ready[path].picture));
      revision := revision + 1;
    }

    /** Whatever the worker does between two of the service's steps. */
    method WorkerActs() returns (ghost steps: seq<Step>)
      requires Valid()
      modifies this
      ensures Valid() && ByWorker(steps) && CanRun(old(Now()), steps) && Now() == Run(old(Now()), steps)
      ensures old(revision) <= revision && (old(value).Some? ==> value.Some?)
      ensures playbackId == old(playbackId) && file == old(file) && closed == old(closed)
      ensures notes.loading == old(notes.loading) && notes.wanted == old(notes.wanted)
        && notes.loaded == old(notes.loaded)
    {
      hide Ok;
      var left: int := *;
      steps := [];
      while left > 0
        invariant Valid() && ByWorker(steps) && CanRun(old(Now()), steps) && Now() == Run(old(Now()), steps)
        invariant KeepsTheLoad(old(Now()), Now())
      {
        left := left - 1;
        ghost var before := Now();
        ghost var step;
        var stops: bool := *;
        if running == None {
          if closed || pending == None {
            break;
          }
          step := TakesUp;
          var path := NextJob();
        } else if running.value.stage == Unread && !stops {
          var stamp: Option<Stamp> := *;
          step := ReadsStamp(stamp);
          ReadFileStamp(stamp);
        } else if HasMore(running.value.stage) && !stops {
          var picture: Picture := *;
          var exact: bool := *;
          exact := exact || running.value.stage.Sampled?;
          step := Publishes(picture, exact);
          PublishNext(picture, exact);
        } else {
          step := Ends;
          FinishJob();
        }
        RunOneMore(old(Now()), steps, step);
        WorkerKeepsTheLoad(before, step);
        steps := steps + [step];
      }
    }

    /** The request the worker takes up, when there is one or the service has closed. */
    method NextJob() returns (path: Option<Path>)
      requires Valid() && running == None && (closed || pending.Some?)
      modifies this`running, this`pending, this`notes
      ensures Valid() && (closed <==> path == None)
      ensures Now() == if closed then old(Now()) else After(old(Now()), TakesUp)
      ensures !closed ==>
        notes.since && path == old(pending) && pending == None && running == Some(Job(path.value, false, Unread))
    {
      hide Ok;
      if closed {
        return None;
      }
      OkKept(Now(), TakesUp);
      path := pending;
      notes := notes.(since := true);
      running, pending := Some(Job(path.value, false, Unread)), None;
    }

    /** The job finds out which version of its file it works on; a file that cannot be read leaves nothing to do. */
    method ReadFileStamp(stamp: Option<Stamp>)
      requires Valid() && running.Some? && running.value.stage == Unread
      modifies this`running
      ensures Valid() && Now() == After(old(Now()), ReadsStamp(stamp))
      ensures running == Some(old(running).value.(stage := if stamp.Some? then HasRead(stamp.value) else Over))
    {
      hide Ok;
      OkKept(Now(), ReadsStamp(stamp));
      running := Some(running.value.(stage := if stamp.Some? then HasRead(stamp.value) else Over));
    }

    /** The job publishes its approximation or, at the end, what is exact or was cached. A job that was cancelled
        meanwhile may do so still. */
    method PublishNext(picture: Picture, exact: bool)
      requires Valid() && running.Some? && HasMore(running.value.stage) && (exact || running.value.stage.HasRead?)
      modifies this`running, this`value, this`revision, this`ready, this`notes
      ensures Valid() && Now() == After(old(Now()), Publishes(picture, exact))
      ensures var job := old(running).value;
              && running == Some(job.(stage := if exact then Over else Sampled(job.stage.stamp)))
              && job.path in ready && ready[job.path] == Remembered(job.stage.stamp, picture)
              && (file == Some(job.path) ==>
                    value == Some(Shown(playbackId.value, picture)) && notes.shown == Some(job.stage.stamp))
              && (file != Some(job.path) ==> value == old(value) && notes.shown == old(notes.shown))
    {
      hide Ok, AfterPublish;
      OkKept(Now(), Publishes(picture, exact));
      var job := running.value;
      Publish(job.path, job.stage.stamp, picture);
      running := Some(job.(stage := if exact then Over else Sampled(job.stage.stamp)));
    }

    method FinishJob()
      requires Valid() && running.Some?
      modifies this`running, this`notes
      ensures Valid() && Now() == After(old(Now()), Ends) && running == None
      ensures var serves := notes.wanted.Some? && RunsFor(old(running), notes.wanted.value);
              && notes.served == (old(notes.served) || serves)
              && notes.servedSince == (old(notes.servedSince) || (serves && notes.since))
    {
      hide Ok;
      OkKept(Now(), Ends);
      notes := AfterEnd(Now()).notes;
      running := None;
    }

    /** Remembers a waveform; that of the loaded Playback's file becomes the topic. */
    method Publish(path: Path, stamp: Stamp, picture: Picture)
      requires Valid()
      modifies this`value, this`revision, this`ready, this`notes
      ensures Valid() && Now() == AfterPublish(old(Now()), path, stamp, picture)
      ensures path in ready && ready[path] == Remembered(stamp, picture)
      ensures file == Some(path) ==>
        value == Some(Shown(playbackId.value, picture)) && notes.shown == Some(stamp) && revision == old(revision) + 1
      ensures file != Some(path) ==> value == old(value) && revision == old(revision)
      ensures file != Some(path) ==> notes.shown == old(notes.shown)
      ensures running == old(running) && file == old(file) && playbackId == old(playbackId)
    {
      PublishIsOk(Now(), path, stamp, picture);
      IdsWithFiles(Now());
      hide Ok;
      notes := AfterPublish(Now(), path, stamp, picture).notes;
      Remember(path, stamp, picture);
      if file == Some(path) {
        value := Some(Shown(playbackId.value, picture));
        revision := revision + 1;
      }
    }

    /** Forgets all others when the memory is full. */
    method Remember(path: Path, stamp: Stamp, picture: Picture)
      modifies this`ready
      ensures ready == WithRemembered(old(ready), path, Remembered(stamp, picture))
      ensures path in ready && ready[path] == Remembered(stamp, picture)
      ensures path in old(ready) || |old(ready)| < MEMORY_ENTRIES ==> ready == old(ready)[path := ready[path]]
      ensures path !in old(ready) && |old(ready)| >= MEMORY_ENTRIES ==> ready == map[path := ready[path]]
    {
      if |ready| >= MEMORY_ENTRIES && path !in ready {
        ready := map[];
      }
      ready := ready[path := Remembered(stamp, picture)];
    }

    method Close()
      requires Valid()
      modifies this`closed, this`running
      ensures Valid() && Now() == After(old(Now()), Closes)
      ensures closed && (running.Some? ==> running.value.cancelled)
    {
      hide Ok;
      OkKept(Now(), Closes);
      closed := true;
      if running.Some? {
        running := Some(running.value.(cancelled := true));
      }
    }
  }

  lemma IdsWithFiles(s: State)
    requires Ok(s)
    ensures s.playbackId.Some? <==> s.file.Some?
  {
  }

  // ---- What the worker makes of a request ----

  predicate WorkerStep(step: Step) { step.TakesUp? || step.ReadsStamp? || step.Publishes? || step.Ends? }

  predicate ByWorker(steps: seq<Step>) {
    forall i :: 0 <= i < |steps| ==> WorkerStep(steps[i])
  }

  predicate CanRun(s: State, steps: seq<Step>)
    decreases |steps|
  {
    steps == [] || (Enabled(s, steps[0]) && CanRun(After(s, steps[0]), steps[1..]))
  }

  function Run(s: State, steps: seq<Step>): State
    requires CanRun(s, steps)
    decreases |steps|
  {
    if steps == [] then s else Run(After(s, steps[0]), steps[1..])
  }

  lemma {:induction false} RunOneMore(s: State, steps: seq<Step>, step: Step)
    requires CanRun(s, steps) && Enabled(Run(s, steps), step)
    ensures CanRun(s, steps + [step]) && Run(s, steps + [step]) == After(Run(s, steps), step)
    decreases |steps|
  {
    hide Enabled, After;
    if steps == [] {
      assert steps + [step] == [step] && [step][1..] == [];
    } else {
      assert (steps + [step])[0] == steps[0] && (steps + [step])[1..] == steps[1..] + [step];
      RunOneMore(After(s, steps[0]), steps[1..], step);
    }
  }

  /** What no step of the worker changes, and what it only adds to. */
  ghost predicate KeepsTheLoad(before: State, s: State) {
    && before.revision <= s.revision && (before.value.Some? ==> s.value.Some?)
    && s.playbackId == before.playbackId && s.file == before.file && s.closed == before.closed
    && s.notes.loading == before.notes.loading && s.notes.wanted == before.notes.wanted
    && s.notes.loaded == before.notes.loaded && s.notes.joined == before.notes.joined
  }

  lemma WorkerKeepsTheLoad(s: State, step: Step)
    requires Enabled(s, step) && WorkerStep(step)
    ensures KeepsTheLoad(s, After(s, step))
  {
    hide WithRemembered;
  }
}
