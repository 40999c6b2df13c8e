/** The meter's hub: one subscription at a time, each with an analysis thread, and the newest stream's ring, as
    interleaved steps. The hub's calls hold the session lock from their first step to their last. */
module MeterHub {
  import opened Options

  type Id = nat
  type Ring = nat

  /** Where an analysis thread is. */
  datatype At =
    /** About to look whether it is still wanted. */
    | Looking
    /** About to take a newer ring. */
    | Taking
    | Reading
    | Parking
    | Clearing

  datatype Thread = Thread(id: Id, at: At, held: Option<Ring>, open: bool)

  /** Where the call that holds the session lock is; `subscribes` says whether it goes on to subscribe. */
  datatype Call =
    | Nobody
    | Stopping(subscribes: bool)
    | Joining(ended: Id, subscribes: bool)
    | Emptying
    | Numbering
    | Spawning(id: Id)

  datatype State = State(
    active: Id,
    slot: Option<Ring>,
    session: Option<Id>,
    threads: seq<Thread>,
    call: Call,
    nextId: Id,
    nextRing: Ring,
    // The ring of the stream that was built last.
    newest: Option<Ring>)

  datatype Step =
    | Tap
    | Subscribe
    | Unsubscribe(id: Id)
    | UnsubscribeAll
    | ClearOld
    | Join
    | Empty
    | Number
    | Spawn
    | SpawnFails
    | Look(i: nat)
    | Take(i: nat)
    | Read(i: nat, listens: bool)
    | Park(i: nat)
    | Clear(i: nat)

  function Init(): State {
    State(0, None, None, [], Nobody, 1, 0, None)
  }

  predicate Alive(s: State, id: Id) {
    exists i :: 0 <= i < |s.threads| && s.threads[i].id == id
  }

  predicate ThreadAt(s: State, i: nat, at: At) {
    i < |s.threads| && s.threads[i].at == at
  }

  predicate Enabled(s: State, step: Step) {
    match step
    case Tap => true
    case Subscribe => s.call.Nobody?
    case Unsubscribe(_) => s.call.Nobody?
    case UnsubscribeAll => s.call.Nobody?
    case ClearOld => s.call.Stopping?
    case Join => s.call.Joining? && !Alive(s, s.call.ended)
    case Empty => s.call.Emptying?
    case Number => s.call.Numbering?
    case Spawn => s.call.Spawning?
    case SpawnFails => s.call.Spawning?
    case Look(i) => ThreadAt(s, i, Looking)
    case Take(i) => ThreadAt(s, i, Taking)
    case Read(i, _) => ThreadAt(s, i, Reading)
    case Park(i) => ThreadAt(s, i, Parking)
    case Clear(i) => ThreadAt(s, i, Clearing)
  }

  /** The flag is cleared only by whoever it still names. */
  function Cleared(s: State, id: Id): State {
    if s.active == id then s.(active := 0) else s
  }

  function Put(s: State, i: nat, t: Thread): State
    requires i < |s.threads|
  {
    s.(threads := s.threads[i := t])
  }

  function After(s: State, step: Step): State
    requires Enabled(s, step)
  {
    match step
    case Tap => s.(slot := Some(s.nextRing), newest := Some(s.nextRing), nextRing := s.nextRing + 1)
    case Subscribe => s.(call := Stopping(true))
    case Unsubscribe(id) => if s.session == Some(id) then s.(call := Stopping(false)) else s
    case UnsubscribeAll => s.(call := Stopping(false))
    case ClearOld =>
      if s.session.None? then s.(call := if s.call.subscribes then Emptying else Nobody)
      else Cleared(s, s.session.value).(session := None, call := Joining(s.session.value, s.call.subscribes))
    case Join => s.(call := if s.call.subscribes then Emptying else Nobody)
    case Empty => s.(call := Numbering)
    case Number => s.(active := s.nextId, call := Spawning(s.nextId), nextId := s.nextId + 1)
    case Spawn => s.(threads := s.threads + [Thread(s.call.id, Looking, None, true)], session := Some(s.call.id),
                     call := Nobody)
    case SpawnFails => s.(active := 0, call := Nobody)
    case Look(i) =>
      var t := s.threads[i];
      Put(s, i, t.(at := if t.open && s.active == t.id then Taking else Parking))
    case Take(i) =>
      var t := s.threads[i];
      var held := if s.slot.Some? then s.slot else t.held;
      Put(s, i, t.(held := held, at := if held.Some? then Reading else Looking)).(slot := None)
    case Read(i, listens) =>
      var t := s.threads[i];
      Put(s, i, t.(open := t.open && listens, at := Looking))
    case Park(i) =>
      var t := s.threads[i];
      Put(s, i, t.(at := Clearing, held := None)).(slot := if s.slot.None? then t.held else s.slot)
    case Clear(i) => Cleared(s, s.threads[i].id).(threads := s.threads[..i] + s.threads[i + 1..])
  }

  /** What every interleaving keeps. */
  ghost predicate Inv(s: State) {
    && |s.threads| <= 1
    && (s.call.Spawning? || s.call.Emptying? || s.call.Numbering? ==> s.session.None? && s.threads == [])
    && (s.call.Joining? ==> s.session.None?)
    && (s.threads != [] ==>
          || s.session == Some(s.threads[0].id)
          || (s.call.Joining? && s.call.ended == s.threads[0].id))
    && (s.active == 0 || s.session == Some(s.active) || (s.call.Spawning? && s.call.id == s.active))
    && (s.call.Spawning? ==> s.active == s.call.id)
    && (s.session.Some? ==> 0 < s.session.value < s.nextId)
    && (s.call.Spawning? ==> 0 < s.call.id < s.nextId) && s.nextId >= 1
    && (s.newest.Some? ==> s.slot == s.newest || (s.threads != [] && s.threads[0].held == s.newest && s.slot.None?))
    && (s.threads != [] && s.threads[0].held.Some? && s.slot.Some? ==> s.threads[0].held != s.slot)
    && (s.threads != [] ==> 0 < s.threads[0].id)
    && (s.threads != [] && s.threads[0].at.Clearing? ==> s.threads[0].held.None?)
    && (s.slot.Some? ==> s.slot == s.newest)
    && (s.threads != [] && s.threads[0].held.Some? ==> s.newest.Some?)
    && (s.threads != [] && s.threads[0].at.Reading? ==> s.threads[0].held.Some?)
    && (s.newest.Some? ==> s.newest.value < s.nextRing)
    && (s.threads != [] && s.threads[0].held.Some? ==> s.threads[0].held.value < s.nextRing)
  }

  lemma InvKept(s: State, step: Step)
    requires Inv(s) && Enabled(s, step)
    ensures Inv(After(s, step))
  {
    assert step.Join? ==> s.threads == [];
  }

  // ---- Whole runs ----

  ghost predicate CanRun(s: State, steps: seq<Step>)
    decreases |steps|
  {
    steps == [] || (Enabled(s, steps[0]) && CanRun(After(s, steps[0]), steps[1..]))
  }

  ghost function Run(s: State, steps: seq<Step>): State
    requires CanRun(s, steps)
    decreases |steps|
  {
    if steps == [] then s else Run(After(s, steps[0]), steps[1..])
  }

  /** A run goes on by one step at its end. */
  lemma {:induction false} RunGoesOn(s: State, steps: seq<Step>, step: Step)
    requires CanRun(s, steps) && Enabled(Run(s, steps), step)
    ensures CanRun(s, steps + [step]) && Run(s, steps + [step]) == After(Run(s, steps), step)
    decreases |steps|
  {
    hide After, Enabled;
    if steps == [] {
      assert CanRun(After(s, step), []) && Run(After(s, step), []) == After(s, step);
    } else {
      assert (steps + [step])[1..] == steps[1..] + [step];
      RunGoesOn(After(s, steps[0]), steps[1..], step);
    }
  }

  lemma {:induction false} InvAlong(s: State, steps: seq<Step>)
    requires CanRun(s, steps) && Inv(s)
    ensures Inv(Run(s, steps))
    decreases |steps|
  {
    hide Inv, After;
    if steps != [] {
      InvKept(s, steps[0]);
      InvAlong(After(s, steps[0]), steps[1..]);
    }
  }

  /** At any time: at most one analysis thread runs; the flag the callback reads is zero, or names the live session
      or the one that is just starting; and the newest stream's ring is either in the slot or with the running
      thread. */
  lemma OneSubscription(steps: seq<Step>)
    requires CanRun(Init(), steps)
    ensures var s := Run(Init(), steps);
            && |s.threads| <= 1
            && (s.active != 0 ==> s.session == Some(s.active) || s.call == Spawning(s.active))
            && (s.active != 0 ==> s.call == Spawning(s.active) || (|s.threads| == 1 && s.threads[0].id == s.active))
            && (s.newest.Some? ==> s.slot == s.newest || (|s.threads| == 1 && s.threads[0].held == s.newest))
            && (s.newest.Some? ==> !(s.slot == s.newest && |s.threads| == 1 && s.threads[0].held == s.newest))
  {
    InvAlong(Init(), steps);
    FlagIsTrue(Init(), steps);
  }

  /** While the callback's flag names a session, that session's thread runs, or is just being started. */
  ghost predicate FlagHasThread(s: State) {
    s.active != 0 ==> s.call == Spawning(s.active) || (s.threads != [] && s.threads[0].id == s.active)
  }

  lemma {:induction false} FlagIsTrue(s: State, steps: seq<Step>)
    requires Inv(s) && FlagHasThread(s) && CanRun(s, steps)
    ensures FlagHasThread(Run(s, steps))
    decreases |steps|
  {
    if steps != [] {
      InvKept(s, steps[0]);
      FlagStaysTrue(s, steps[0]);
      hide After, Inv, FlagHasThread;
      FlagIsTrue(After(s, steps[0]), steps[1..]);
    }
  }

  lemma FlagStaysTrue(s: State, step: Step)
    requires Inv(s) && FlagHasThread(s) && Enabled(s, step)
    ensures FlagHasThread(After(s, step))
  {
  }

  /** A stale id changes nothing; the id of the live session ends it. */
  lemma UnsubscribeIsExact(s: State, id: Id)
    requires Inv(s) && Enabled(s, Unsubscribe(id))
    ensures s.session != Some(id) <==> After(s, Unsubscribe(id)) == s
    ensures s.session == Some(id) ==>
      && Enabled(After(s, Unsubscribe(id)), ClearOld)
      && var t := After(After(s, Unsubscribe(id)), ClearOld);
         t.active == 0 && t.session == None && t.call == Joining(id, false)
  {
  }

  /** A new stream's ring is the newest one, and no ring that anybody has is that one. */
  lemma TapIsNewest(s: State)
    requires Inv(s)
    ensures var t := After(s, Tap);
            && t.newest.Some? && t.slot == t.newest && t.newest != s.newest && t.newest != s.slot
            && t.threads == s.threads && forall i :: 0 <= i < |s.threads| ==> s.threads[i].held != t.newest
  {
  }

  /** Whoever subscribes or ends every subscription clears the live session's flag and joins its thread. Without a live
      session a subscription begins at once, and there is nothing to end. */
  lemma StopsTheOld(s: State, step: Step)
    requires Inv(s) && s.call.Nobody? && (step == Subscribe || step == UnsubscribeAll)
    ensures CanRun(s, [step, ClearOld])
    ensures var t := Run(s, [step, ClearOld]);
            if s.session.Some? then
              t.call == Joining(s.session.value, step.Subscribe?) && t.session.None? && t.active == 0
              && t.threads == s.threads && t.slot == s.slot
            else t == if step.Subscribe? then s.(call := Emptying) else s
  {
    TwoSteps(s, step, ClearOld);
  }

  /** Once the old thread has ended, the call goes on to its own session exactly if it subscribes; otherwise no session,
      no thread and no flag is left. */
  lemma JoinedGoesOn(s: State)
    requires Inv(s) && s.call.Joining? && s.threads == []
    ensures Enabled(s, Join)
    ensures var t := After(s, Join);
            t == s.(call := if s.call.subscribes then Emptying else Nobody) && t.session.None? && t.active == 0
  {
  }

  lemma TwoSteps(s: State, first: Step, second: Step)
    requires Enabled(s, first) && Enabled(After(s, first), second)
    ensures CanRun(s, [first, second]) && Run(s, [first, second]) == After(After(s, first), second)
  {
    hide After, Enabled;
    assert CanRun(s, []) && Run(s, []) == s;
    RunGoesOn(s, [], first);
    RunGoesOn(s, [first], second);
    assert [] + [first] == [first] && [first] + [second] == [first, second];
  }

  lemma ThreeSteps(s: State, first: Step, second: Step, third: Step)
    requires CanRun(s, [first, second]) && Enabled(Run(s, [first, second]), third)
    ensures CanRun(s, [first, second, third])
    ensures Run(s, [first, second, third]) == After(Run(s, [first, second]), third)
  {
    RunGoesOn(s, [first, second], third);
    assert [first, second] + [third] == [first, second, third];
  }

  /** A subscription that begins has the next id, which the flag, the session and the one thread carry. */
  lemma SubscriptionBegins(s: State)
    requires Inv(s) && s.call.Emptying?
    ensures CanRun(s, [Empty, Number, Spawn])
    ensures Run(s, [Empty, Number, Spawn])
         == s.(active := s.nextId, session := Some(s.nextId), threads := [Thread(s.nextId, Looking, None, true)],
               call := Nobody, nextId := s.nextId + 1)
  {
    TwoSteps(s, Empty, Number);
    ThreeSteps(s, Empty, Number, Spawn);
  }

  lemma ClosedThreadEnds(s: State)
    requires Inv(s) && s.threads != [] && s.threads[0].at.Looking? && !s.threads[0].open && s.newest.Some?
    ensures CanRun(s, [Look(0), Park(0), Clear(0)])
    ensures var t := Run(s, [Look(0), Park(0), Clear(0)]);
            t.threads == [] && t.active != s.threads[0].id && t.slot == t.newest == s.newest
  {
    TwoSteps(s, Look(0), Park(0));
    ThreeSteps(s, Look(0), Park(0), Clear(0));
  }

  /** A thread whose frames nobody takes any more ends: its ring goes back to the slot unless a newer stream's is there,
      and the flag no longer names it. */
  lemma UnheardThreadEnds(s: State)
    requires Inv(s) && s.threads != [] && s.threads[0].at.Reading?
    ensures var steps := [Read(0, false), Look(0), Park(0), Clear(0)];
            && CanRun(s, steps)
            && var t := Run(s, steps);
               t.threads == [] && t.active != s.threads[0].id && t.slot == t.newest == s.newest && t.slot.Some?
  {
    var a := After(s, Read(0, false));
    assert !a.threads[0].open && a.threads[0].id == s.threads[0].id && a.newest == s.newest && s.newest.Some?;
    InvKept(s, Read(0, false));
    ClosedThreadEnds(a);
    hide After, Inv;
    assert [Read(0, false), Look(0), Park(0), Clear(0)][1..] == [Look(0), Park(0), Clear(0)];
  }

  /** The thread whose subscription is live and whose receiver still listens. */
  predicate Wanted(s: State) {
    s.threads != [] && s.threads[0].open && s.active == s.threads[0].id
  }

  /** A subscription's thread is wanted from its start; without a thread nothing is active. */
  lemma SpawnedIsWanted(s: State)
    requires Inv(s) && s.call.Spawning?
    ensures var t := After(s, Spawn);
            && Wanted(t) && t.session == Some(t.active) && t.active == s.call.id && t.call.Nobody?
            && t.threads == [Thread(t.active, Looking, None, true)]
    ensures var t := After(s, SpawnFails); t.active == 0 && t.session.None? && t.threads == [] && t.call.Nobody?
  {
  }

  /** A wanted thread is never on its way out. */
  ghost predicate GoesOn(s: State) {
    Wanted(s) ==> s.threads[0].at.Looking? || s.threads[0].at.Taking? || s.threads[0].at.Reading?
  }

  lemma GoesOnKept(s: State, step: Step)
    requires Inv(s) && GoesOn(s) && Enabled(s, step)
    ensures GoesOn(After(s, step))
  {
  }

  /** After any run a wanted thread is looking, taking or reading, and one that is about to look reads the newest
      stream's ring two steps of its own later. */
  lemma {:induction false} WantedThreadReads(s: State, steps: seq<Step>)
    requires Inv(s) && GoesOn(s) && CanRun(s, steps)
    ensures Inv(Run(s, steps)) && GoesOn(Run(s, steps))
    ensures var t := Run(s, steps);
            Wanted(t) && t.threads[0].at.Looking? && t.newest.Some? ==>
              && Enabled(t, Look(0)) && Enabled(After(t, Look(0)), Take(0))
              && After(After(t, Look(0)), Take(0)).threads[0] == Thread(t.active, Reading, t.newest, true)
    decreases |steps|
  {
    if steps != [] {
      InvKept(s, steps[0]);
      GoesOnKept(s, steps[0]);
      hide After, Inv, GoesOn, Enabled, Wanted;
      WantedThreadReads(After(s, steps[0]), steps[1..]);
    }
  }

  /** Steps of its own a thread takes at most, once it is no longer wanted. */
  function Remaining(t: Thread): nat {
    match t.at
    case Taking => 5
    case Reading => 4
    case Looking => 3
    case Parking => 2
    case Clearing => 1
  }

  lemma SomeThreadStep(s: State)
    requires s.threads != []
    ensures exists step :: ThreadStep(step) && Enabled(s, step)
  {
    var next := match s.threads[0].at
      case Looking => Look(0)
      case Taking => Take(0)
      case Reading => Read(0, true)
      case Parking => Park(0)
      case Clearing => Clear(0);
    assert ThreadStep(next) && Enabled(s, next);
  }

  lemma ThreadStepGoesOn(s: State, step: Step)
    requires Inv(s) && s.call.Joining? && s.threads != [] && ThreadStep(step) && Enabled(s, step)
    ensures var t := After(s, step);
            t.call == s.call && (t.threads == [] || Remaining(t.threads[0]) < Remaining(s.threads[0]))
  {
  }

  /** A call that joins the old thread is never stuck: the thread can always go on and is at its end within five
      steps, whatever else happens. */
  lemma JoinEnds(s: State)
    requires Inv(s) && s.call.Joining? && s.threads != []
    ensures exists step :: ThreadStep(step) && Enabled(s, step)
    ensures forall step :: ThreadStep(step) && Enabled(s, step) ==>
      var t := After(s, step);
      t.call == s.call && (t.threads == [] || Remaining(t.threads[0]) < Remaining(s.threads[0]))
  {
    hide Inv, After, Enabled, ThreadStep, Remaining;
    SomeThreadStep(s);
    forall step | ThreadStep(step) && Enabled(s, step)
      ensures var t := After(s, step);
              t.call == s.call && (t.threads == [] || Remaining(t.threads[0]) < Remaining(s.threads[0]))
    {
      ThreadStepGoesOn(s, step);
    }
  }

  predicate ThreadStep(step: Step) {
    step.Look? || step.Take? || step.Read? || step.Park? || step.Clear?
  }
}
