/** The Renderer's transport: commands and seeks that arrive while one is in flight. */
module Transport {
  import opened Options

  /** Numbers that only grow. */
  ghost predicate Increasing(s: seq<nat>) {
    forall i, j :: 0 <= i < j < |s| ==> s[i] < s[j]
  }

  lemma IncreasingMore(s: seq<nat>, next: nat)
    requires Increasing(s) && (s != [] ==> s[|s| - 1] < next)
    ensures Increasing(s + [next])
  {
  }

  // ---- Commands ----

  /** Commands are numbered in the order they are submitted; each stands for its operation and its caller's promise. */
  class Commands {
    var pending: Option<nat>
    var queued: Option<nat>
    /** How many were submitted. */
    var submitted: nat
    /** Those sent to the Backend, in order, and those rejected as superseded. */
    ghost var ran: seq<nat>
    ghost var superseded: set<nat>

    ghost predicate Valid()
      reads this
    {
      && Increasing(ran)
      && (forall id :: id in ran ==> id < submitted && id !in superseded && queued != Some(id))
      && (forall id :: id in superseded ==> id < submitted && queued != Some(id))
      && (forall id :: 0 <= id < submitted ==> id in ran || id in superseded || queued == Some(id))
      && (pending.Some? ==> ran != [] && ran[|ran| - 1] == pending.value)
      && (queued.Some? ==> pending.Some? && queued.value == submitted - 1)
      && (submitted > 0 ==> submitted - 1 !in superseded)
    }

    constructor ()
      ensures Valid() && pending == queued == None && submitted == 0 && ran == [] && superseded == {}
    {
      pending, queued := None, None;
      submitted, ran, superseded := 0, [], {};
    }

    /** Sends a command to the Backend. */
    method Perform(id: nat)
      requires pending == None && Increasing(ran) && (ran != [] ==> ran[|ran| - 1] < id)
      modifies this`pending, this`ran
      ensures pending == Some(id) && ran == old(ran) + [id] && Increasing(ran)
    {
      IncreasingMore(ran, id);
      pending := Some(id);
      ran := ran + [id];
    }

    /** Runs a command, or lets it wait for the one in flight in the place of one that already waits. */
    method Submit() returns (id: nat)
      requires Valid()
      modifies this
      ensures Valid() && id == old(submitted) && submitted == id + 1
      ensures old(pending) == None ==> pending == Some(id) && ran == old(ran) + [id] && superseded == old(superseded)
      ensures old(pending).Some? ==>
        && pending == old(pending) && queued == Some(id) && ran == old(ran)
        && superseded == old(superseded) + if old(queued).Some? then {old(queued).value} else {}
    {
      id := submitted;
      LastRanIsBefore();
      if pending == None {
        submitted := submitted + 1;
        Perform(id);
      } else {
        if queued.Some? {
          superseded := superseded + {queued.value};
        }
        submitted := submitted + 1;
        queued := Some(id);
      }
    }

    lemma LastRanIsBefore()
      requires Valid()
      ensures ran != [] ==> ran[|ran| - 1] < submitted && ran[|ran| - 1] in ran
    {
    }

    /** The command in flight settled, either way: the one that waits is sent. */
    method Settled()
      requires Valid() && pending.Some?
      modifies this`pending, this`queued, this`ran
      ensures Valid() && queued == None
      ensures old(queued).Some? ==> pending == old(queued) && ran == old(ran) + [old(queued).value]
      ensures old(queued) == None ==> pending == None && ran == old(ran)
    {
      LastRanIsBefore();
      pending := None;
      var next := queued;
      queued := None;
      if next.Some? {
        assert ran[|ran| - 1] != next.value;
        Perform(next.value);
      }
    }

    /** Whatever was submitted: commands run in their order, each at most once, and none both runs and is rejected.
        When nothing is in flight each one ran or was rejected, and the last ran. */
    lemma LatestWins()
      requires Valid()
      ensures Increasing(ran) && forall id :: id in ran ==> id !in superseded
      ensures queued.Some? ==> pending.Some?
      ensures pending == None ==> forall id :: 0 <= id < submitted ==> (id in ran <==> id !in superseded)
      ensures pending == None && submitted > 0 ==> ran != [] && ran[|ran| - 1] == submitted - 1
    {
      if pending == None && submitted > 0 {
        assert submitted - 1 in ran;
        var i :| 0 <= i < |ran| && ran[i] == submitted - 1;
        var last := |ran| - 1;
        assert ran[last] in ran && ran[i] <= ran[last];
      }
    }
  }

  // ---- Seeks ----

  /** Seeks are numbered in the order they are asked for, each for a position: whether one is in flight, which one
      waits, how many were asked for, and those sent, in order. */
  datatype SeekState = SeekState(inFlight: bool, requested: Option<nat>, asked: nat, sent: seq<nat>) {
    /** The seek asked for last was the last one sent. */
    predicate NewestSent() { sent != [] && sent[|sent| - 1] == asked - 1 }
  }

  ghost predicate SeeksOk(s: SeekState) {
    && Increasing(s.sent) && (forall id :: id in s.sent ==> id < s.asked)
    && (s.requested.Some? ==> s.inFlight && s.requested.value == s.asked - 1 && s.requested.value !in s.sent)
    && (s.inFlight && s.requested == None ==> s.NewestSent())
    && (s.inFlight ==> s.sent != [])
  }

  lemma LastSentIsBefore(s: SeekState)
    requires SeeksOk(s) && s.sent != []
    ensures s.sent[|s.sent| - 1] in s.sent && s.sent[|s.sent| - 1] < s.asked
  {
  }

  class Seeks {
    var inFlight: bool
    var requested: Option<nat>
    var asked: nat
    ghost var sent: seq<nat>

    ghost function Now(): SeekState
      reads this
    {
      SeekState(inFlight, requested, asked, sent)
    }

    constructor ()
      ensures Now() == SeekState(false, None, 0, []) && SeeksOk(Now())
    {
      inFlight, requested, asked, sent := false, None, 0, [];
    }

    method Send()
      requires requested.Some? && Increasing(sent) && (sent != [] ==> sent[|sent| - 1] < requested.value)
      modifies this`requested, this`sent
      ensures requested == None && sent == old(sent) + [old(requested).value] && Increasing(sent)
    {
      IncreasingMore(sent, requested.value);
      sent := sent + [requested.value];
      requested := None;
    }

    /** Asks for a position. While a seek is in flight only the newest waits. */
    method Seek()
      requires SeeksOk(Now())
      modifies this
      ensures SeeksOk(Now()) && Now() == AfterEvent(old(Now()), Asked)
      ensures asked == old(asked) + 1 && inFlight
      ensures !old(inFlight) ==> sent == old(sent) + [old(asked)] && requested == None
      ensures old(inFlight) ==> sent == old(sent) && requested == Some(old(asked))
    {
      if sent != [] {
        LastSentIsBefore(Now());
      }
      requested := Some(asked);
      asked := asked + 1;
      if inFlight {
        return;
      }
      inFlight := true;
      Send();
    }

    /** The seek in flight returned: the one that waits is sent, and without one the newest has been. */
    method Returned()
      requires SeeksOk(Now()) && inFlight
      modifies this
      ensures SeeksOk(Now()) && Now() == AfterEvent(old(Now()), SeekEvent.Returned)
      ensures requested == None && asked == old(asked) && (inFlight <==> old(requested).Some?)
      ensures sent == if old(requested).Some? then old(sent) + [old(requested).value] else old(sent)
      ensures Now().NewestSent()
    {
      LastSentIsBefore(Now());
      if requested.Some? {
        assert sent[|sent| - 1] != requested.value;
        Send();
      } else {
        inFlight := false;
      }
    }

    /** The seek in flight failed. If one waits, it is dropped with it; the newest was sent exactly if none does. */
    method Rejected()
      requires SeeksOk(Now()) && inFlight
      modifies this
      ensures SeeksOk(Now()) && Now() == AfterEvent(old(Now()), SeekEvent.Rejected)
      ensures requested == None && !inFlight && asked == old(asked) && sent == old(sent)
      ensures Now().NewestSent() <==> old(requested) == None
    {
      LastSentIsBefore(Now());
      requested := None;
      inFlight := false;
    }
  }

  // ---- Whole runs of seeks ----

  datatype SeekEvent = Asked | Returned | Rejected

  function AfterEvent(s: SeekState, e: SeekEvent): SeekState {
    match e
    case Asked =>
      if s.inFlight then s.(requested := Some(s.asked), asked := s.asked + 1)
      else SeekState(true, None, s.asked + 1, s.sent + [s.asked])
    case Returned =>
      if s.requested.Some? then s.(requested := None, sent := s.sent + [s.requested.value]) else s.(inFlight := false)
    case Rejected => s.(requested := None, inFlight := false)
  }

  function AfterEvents(events: seq<SeekEvent>): SeekState {
    if events == [] then SeekState(false, None, 0, [])
    else AfterEvent(AfterEvents(events[..|events| - 1]), events[|events| - 1])
  }

  /** A seek returns or fails only while one is in flight. */
  predicate CanHappen(events: seq<SeekEvent>) {
    events == [] ||
    (CanHappen(events[..|events| - 1]) && (events[|events| - 1] == Asked
                                           || AfterEvents(events[..|events| - 1]).inFlight))
  }

  lemma EventIsOk(s: SeekState, e: SeekEvent)
    requires SeeksOk(s) && (e == Asked || s.inFlight)
    ensures SeeksOk(AfterEvent(s, e))
  {
    if s.sent != [] {
      LastSentIsBefore(s);
    }
    if e == Asked && !s.inFlight {
      IncreasingMore(s.sent, s.asked);
    } else if e == Returned && s.requested.Some? {
      IncreasingMore(s.sent, s.requested.value);
    }
  }

  /** One waits exactly if the last thing that happened was that it was asked for while another was in flight. */
  lemma {:induction false} EventsAreOk(events: seq<SeekEvent>)
    requires CanHappen(events)
    ensures SeeksOk(AfterEvents(events))
    ensures AfterEvents(events).requested.Some? <==>
            events != [] && events[|events| - 1] == Asked && AfterEvents(events[..|events| - 1]).inFlight
  {
    if events != [] {
      EventsAreOk(events[..|events| - 1]);
      EventIsOk(AfterEvents(events[..|events| - 1]), events[|events| - 1]);
    }
  }

  /** The last seek was asked for while another was in flight, and that one then failed. */
  predicate EndsInAFailureOverAWaiter(events: seq<SeekEvent>) {
    var n := |events|;
    n >= 2 && events[n - 1] == Rejected && events[n - 2] == Asked && AfterEvents(events[..n - 2]).inFlight
  }

  /** Over any run, seeks are sent in the order they were asked for, each at most once; and when nothing is in flight
      any more, the newest was the last one sent, except exactly if the one in flight failed while it waited. */
  lemma NewestIsSentExactly(events: seq<SeekEvent>)
    requires CanHappen(events)
    ensures Increasing(AfterEvents(events).sent)
    ensures var s := AfterEvents(events);
            !s.inFlight && s.asked > 0 ==> (s.NewestSent() <==> !EndsInAFailureOverAWaiter(events))
  {
    EventsAreOk(events);
    if events != [] {
      var before := events[..|events| - 1];
      EventsAreOk(before);
      if before != [] {
        assert before[..|before| - 1] == events[..|events| - 2];
        assert before[|before| - 1] == events[|events| - 2];
      }
      if AfterEvents(before).sent != [] {
        LastSentIsBefore(AfterEvents(before));
      }
    }
  }

  /** Two seeks, the second while the first is in flight, and the first fails: the second is never sent. */
  method SecondIsNeverSent() returns (seeks: Seeks)
    ensures seeks.asked == 2 && !seeks.inFlight && seeks.requested == None && seeks.sent == [0]
  {
    seeks := new Seeks();
    seeks.Seek();
    seeks.Seek();
    seeks.Rejected();
  }
}
