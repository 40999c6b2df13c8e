/** The channel in use and the session it belongs to: exactly when a change reaches the Renderer's copies through it,
    and when a session that is connected can be left behind. */
module Channels {
  import opened Messages
  import opened Options
  import opened Replication

  // ---- What can come about ----

  ghost predicate Reachable(s: System) {
    exists values: map<Topic, Value>, steps ::
      (forall t: Topic :: t in values) && Complete(Init(values).hist) && CanRun(Init(values), steps)
          && Run(Init(values), steps) == s
  }

  lemma ReachableIsInv(s: System)
    requires Reachable(s)
    ensures Inv(s) && Complete(s.hist)
  {
    var values: map<Topic, Value>, steps :|
      (forall t: Topic :: t in values) && Complete(Init(values).hist) && CanRun(Init(values), steps)
          && Run(Init(values), steps) == s;
    InitIsInv(values);
    InvAlong(Init(values), steps);
    IsComplete(s);
  }

  lemma {:induction false} RunOneMore(s: System, steps: seq<Step>, step: Step)
    requires Complete(s.hist) && CanRun(s, steps) && Complete(Run(s, steps).hist) && Enabled(Run(s, steps), step)
    requires Complete(After(Run(s, steps), step).hist)
    ensures CanRun(s, steps + [step]) && Run(s, steps + [step]) == After(Run(s, steps), step)
    decreases |steps|
  {
    hide Enabled, After, Complete;
    RunFirst(s, steps);
    RunFirst(s, steps + [step]);
    if steps == [] {
      assert steps + [step] == [step];
      RunFirst(After(s, step), []);
      assert [step][1..] == [];
    } else {
      CanGoOn(s, steps);
      RunOneMore(After(s, steps[0]), steps[1..], step);
      assert (steps + [step])[1..] == steps[1..] + [step];
    }
  }

  lemma CanGoOn(s: System, steps: seq<Step>)
    requires Complete(s.hist) && CanRun(s, steps) && steps != []
    ensures Enabled(s, steps[0]) && Complete(After(s, steps[0]).hist) && CanRun(After(s, steps[0]), steps[1..])
  {
  }

  lemma Next(s: System, step: Step)
    requires Reachable(s) && Enabled(s, step) && Complete(s.hist)
    ensures Reachable(After(s, step)) && Complete(After(s, step).hist)
  {
    ReachableIsInv(s);
    InvKept(s, step);
    IsComplete(After(s, step));
    var values: map<Topic, Value>, steps :|
      (forall t: Topic :: t in values) && Complete(Init(values).hist) && CanRun(Init(values), steps)
          && Run(Init(values), steps) == s;
    hide After, Enabled, Inv, Complete;
    RunOneMore(Init(values), steps, step);
  }

  lemma {:induction false} NextAll(s: System, steps: seq<Step>)
    requires Reachable(s) && Complete(s.hist) && CanRun(s, steps)
    ensures Reachable(Run(s, steps))
    decreases |steps|
  {
    hide After, Enabled, Reachable, Complete;
    RunFirst(s, steps);
    if steps != [] {
      CanGoOn(s, steps);
      Next(s, steps[0]);
      NextAll(After(s, steps[0]), steps[1..]);
    }
  }

  // ---- One change through the channel ----

  /** Nothing is on its way to anyone through the channel. */
  ghost predicate Quiet(s: System) {
    s.owed == multiset{} && s.signals == [] && s.todo == [] && s.outbox == []
    && forall k :: 0 <= k < |s.sessions| ==> s.sessions[k].inbox == []
  }

  lemma QuietParts(s: System)
    requires Quiet(s)
    ensures s.owed == multiset{} && s.signals == [] && s.todo == [] && s.outbox == []
    ensures forall k :: 0 <= k < |s.sessions| ==> s.sessions[k].inbox == []
  {
  }

  /** The next change of `t`, all the way to session `j`. */
  function ChangeSent(t: Topic, v: Value, j: nat): seq<Step> {
    [Change(t, v), Notify(t), TakeBatch(1), ReadTopic, Send, Receive(j)]
  }

  lemma AnnouncedChange(s: System, t: Topic, v: Value)
    requires Complete(s.hist) && s.owed == multiset{} && s.signals == []
    ensures var a := After(s, Change(t, v));
            Enabled(s, Change(t, v)) && Complete(a.hist) && Complete(s.hist[t := s.hist[t] + [v]])
                && Enabled(a, Notify(t)) && After(a, Notify(t))
                    == s.(hist := s.hist[t := s.hist[t] + [v]], signals := [t])
  {
  }

  lemma BatchOfOne(s: System, t: Topic)
    requires Complete(s.hist) && s.signals == [t] && s.todo == [] && s.outbox == []
    ensures Enabled(s, TakeBatch(1)) && After(s, TakeBatch(1)) == s.(signals := [], todo := [t])
    ensures var c := s.(signals := [], todo := [t]);
            Enabled(c, ReadTopic) && After(c, ReadTopic) == s.(signals := [], outbox := [Latest(s.hist, t)])
  {
    hide Ordered, Rank, Received, Applied, Inactive, AcceptAll, Accept;
    assert s.signals[..1] == [t] && s.signals[1..] == [];
    OnlyTopic(s.signals[..1], t);
    OrderedOne(t, 0);
  }

  /** Session `j` receives `v`. */
  function Delivered(s: System, j: nat, v: Version): System
    requires Is(s, j)
  {
    Received(With(s, j, s.sessions[j].(inbox := [v])), j)
  }

  lemma SentAndReceived(s: System, j: nat, v: Version)
    requires Complete(s.hist) && s.todo == [] && s.outbox == [v] && s.channel == Some(j) && Is(s, j)
      && s.sessions[j].inbox == []
    ensures var e := After(s, Send);
            Enabled(s, Send) && e.hist == s.hist && Enabled(e, Receive(j))
                && After(e, Receive(j)) == Delivered(s.(outbox := []), j, v)
  {
    hide Received;
    assert [v][1..] == [] && [] + [v] == [v];
  }

  lemma ChangeIsDelivered(s: System, j: nat, t: Topic, v: Value)
    requires Complete(s.hist) && Quiet(s) && s.channel == Some(j) && Is(s, j)
    ensures var hist := s.hist[t := s.hist[t] + [v]];
            && Complete(hist) && CanRun(s, ChangeSent(t, v, j))
            && Run(s, ChangeSent(t, v, j)) == Delivered(s.(hist := hist), j, Latest(hist, t))
  {
    hide After, Enabled, Quiet, Complete, Latest, Delivered;
    QuietParts(s);
    AnnouncedChange(s, t, v);
    var a := After(s, Change(t, v));
    var b := After(a, Notify(t));
    BatchOfOne(b, t);
    var c := b.(signals := [], todo := [t]);
    var d := b.(signals := [], outbox := [Latest(b.hist, t)]);
    SentAndReceived(d, j, Latest(b.hist, t));
    var f := Delivered(d.(outbox := []), j, Latest(b.hist, t));
    DeliveredHist(d.(outbox := []), j, Latest(b.hist, t));
    RunSix(s, ChangeSent(t, v, j), a, b, c, d, After(d, Send), f);
  }

  lemma DeliveredHist(s: System, j: nat, v: Version)
    requires Is(s, j)
    ensures Delivered(s, j, v).hist == s.hist
  {
  }

  /** The session has had its answer or its failure: it routes what it receives. */
  predicate Routes(session: Session) {
    session.active && (session.phase.Ready? || session.phase.Failed?)
  }

  /** A change reaches the Renderer's copy exactly when the session whose channel is in use is active and its call has
      ended, either way. One that still waits for its answer keeps it for then, and one that was stopped drops it:
      all is quiet again, and no copy has it. */
  lemma ChangeArrivesExactly(s: System, j: nat, t: Topic, v: Value)
    requires Inv(s) && Complete(s.hist) && Quiet(s) && s.channel == Some(j) && Is(s, j)
    ensures CanRun(s, ChangeSent(t, v, j))
    ensures var u := Run(s, ChangeSent(t, v, j));
            && Complete(u.hist) && Quiet(u) && u.channel == s.channel && u.hist == s.hist[t := s.hist[t] + [v]]
            && (Has(u, t) <==> Routes(s.sessions[j]))
            && (!Routes(s.sessions[j]) ==> u.replicas == s.replicas)
            && (!s.sessions[j].active ==> u.sessions == s.sessions)
            && (s.sessions[j].active && !Routes(s.sessions[j]) ==>
                  u.sessions == s.sessions[j := s.sessions[j].(early := s.sessions[j].early + [Latest(u.hist, t)])])
  {
    ChangeIsDelivered(s, j, t, v);
    CopiesAreOlder(s, t, v);
    hide CanRun, Run, Inv;
    var session := s.sessions[j];
    assert session.(inbox := []) == session;
    assert s.sessions[j := session.(inbox := [Latest(s.hist[t := s.hist[t] + [v]], t)])][j := session] == s.sessions;
  }

  lemma CopiesAreOlder(s: System, t: Topic, v: Value)
    requires Inv(s) && Complete(s.hist)
    ensures var hist := s.hist[t := s.hist[t] + [v]];
            Complete(hist) && (t in s.replicas ==> s.replicas[t].revision < Latest(hist, t).revision)
  {
  }

  lemma RunSix(s: System, steps: seq<Step>, a: System, b: System, c: System, d: System, e: System, f: System)
    requires |steps| == 6 && Complete(s.hist) && Complete(a.hist) && Complete(b.hist) && Complete(c.hist)
    requires Complete(d.hist) && Complete(e.hist) && Complete(f.hist)
    requires Enabled(s, steps[0]) && a == After(s, steps[0]) && Enabled(a, steps[1]) && b == After(a, steps[1])
    requires Enabled(b, steps[2]) && c == After(b, steps[2]) && Enabled(c, steps[3]) && d == After(c, steps[3])
    requires Enabled(d, steps[4]) && e == After(d, steps[4]) && Enabled(e, steps[5]) && f == After(e, steps[5])
    ensures CanRun(s, steps) && Run(s, steps) == f
  {
    hide Enabled, After, Complete;
    RunFirst(f, []);
    RunFirst(e, steps[5..]);
    RunFirst(d, steps[4..]);
    RunFirst(c, steps[3..]);
    RunFirst(b, steps[2..]);
    RunFirst(a, steps[1..]);
    RunFirst(s, steps);
  }

  // ---- Left behind ----

  /** How the session whose channel is in use stands. */
  datatype Standing = Waiting | Live | Refused | Stopped

  function StandingOf(session: Session): Standing {
    if !session.active then Stopped
    else if session.phase.Ready? then Live
    else if session.phase.Failed? then Refused
    else Waiting
  }

  /** All is quiet, session `k` is connected, and yet the copy of `t` is not the Backend's value. */
  ghost predicate LeftBehind(s: System, j: nat, k: nat, t: Topic) {
    && Reachable(s) && Complete(s.hist) && Quiet(s) && s.channel == Some(j) && Is(s, j)
    && Is(s, k) && s.sessions[k].active && s.sessions[k].phase.Ready?
    && !Has(s, t)
  }

  ghost predicate CanBeLeftBehind(standing: Standing) {
    exists s, j: nat, k: nat, t :: LeftBehind(s, j, k, t) && StandingOf(s.sessions[j]) == standing
  }

  lemma LiveChannelsKeepUp(s: System, j: nat, k: nat, t: Topic)
    requires LeftBehind(s, j, k, t)
    ensures StandingOf(s.sessions[j]) != Live && !(s.sessions[j].active && s.sessions[j].phase.Ready?)
  {
    ReachableIsInv(s);
    if StandingOf(s.sessions[j]) == Live {
      QuietParts(s);
      AllArrived(s, j, t);
    }
  }

  const TOPIC: Topic := Playback

  /** A session that has read the first `n` topics. */
  ghost predicate HasRead(s: System, n: nat) {
    && Reachable(s) && Complete(s.hist) && Quiet(s) && |s.sessions| == 2 && s.channel == Some(1)
    && s.sessions[0] == Session(Phase.Connecting, true, [], [])
    && s.sessions[1].active && s.sessions[1].phase.Reading? && |s.sessions[1].phase.read| == n
    && s.sessions[1].early == []
  }

  lemma Starts() returns (s: System)
    ensures Reachable(s) && Complete(s.hist) && Quiet(s) && s.sessions == [] && s.channel == None
  {
    var values: map<Topic, Value> := map[Playback := 0, Queue := 0, LibraryScan := 0, Waveform := 0, Appearance := 0];
    forall t: Topic ensures t in values {
      match t case Playback => case Queue => case LibraryScan => case Waveform => case Appearance =>
    }
    s := Init(values);
    InitIsInv(values);
    RunFirst(s, []);
    IsQuiet(values);
  }

  lemma IsQuiet(values: map<Topic, Value>)
    ensures Quiet(Init(values))
  {
  }

  lemma OpensTwo() returns (s: System)
    ensures HasRead(s, 0)
  {
    hide Reachable;
    var none := Starts();
    Next(none, Open);
    var one := After(none, Open);
    Next(one, Open);
    var two := After(one, Open);
    Next(two, Replace(1));
    s := After(two, Replace(1));
  }

  lemma ReadsOne(s: System, n: nat) returns (u: System)
    requires HasRead(s, n) && n < |TOPICS|
    ensures HasRead(u, n + 1)
  {
    Next(s, ReadInitial(1));
    u := After(s, ReadInitial(1));
  }

  /** Session 1 is connected, and then the older session 0 registers its channel. */
  ghost predicate OlderRegistered(s: System) {
    && Reachable(s) && Complete(s.hist) && Quiet(s) && |s.sessions| == 2 && s.channel == Some(0)
    && s.sessions[0] == Session(Reading([]), true, [], [])
    && s.sessions[1].active && s.sessions[1].phase.Ready?
  }

  lemma OlderRegisters() returns (s: System)
    ensures OlderRegistered(s)
  {
    hide HasRead;
    var read := OpensTwo();
    read := ReadsOne(read, 0);
    read := ReadsOne(read, 1);
    read := ReadsOne(read, 2);
    read := ReadsOne(read, 3);
    read := ReadsOne(read, 4);
    s := AnsweredThenOlder(read);
  }

  lemma AnsweredThenOlder(read: System) returns (s: System)
    requires HasRead(read, |TOPICS|)
    ensures OlderRegistered(s)
  {
    hide AcceptAll, Accept, Reachable;
    Next(read, Answer(1));
    var answered := After(read, Answer(1));
    Next(answered, Apply(1));
    var ready := After(answered, Apply(1));
    Next(ready, Replace(0));
    s := After(ready, Replace(0));
  }

  /** A change that the older session does not route leaves the newer one behind. */
  lemma LeavesBehind(s: System, v: Value) returns (u: System)
    requires Reachable(s) && Complete(s.hist) && Quiet(s) && |s.sessions| == 2 && s.channel == Some(0)
    requires s.sessions[1].active && s.sessions[1].phase.Ready? && !Routes(s.sessions[0])
    ensures LeftBehind(u, 0, 1, TOPIC) && u.sessions[0].phase == s.sessions[0].phase
      && u.sessions[0].active == s.sessions[0].active
    ensures |u.sessions| == 2
  {
    ReachableIsInv(s);
    ChangeArrivesExactly(s, 0, TOPIC, v);
    NextAll(s, ChangeSent(TOPIC, v, 0));
    hide Reachable, CanRun, Run, Has, Inv;
    u := Run(s, ChangeSent(TOPIC, v, 0));
  }

  lemma StoppedLeavesBehind() returns (u: System)
    ensures LeftBehind(u, 0, 1, TOPIC) && StandingOf(u.sessions[0]) == Stopped
  {
    var s := OlderRegisters();
    Next(s, Stop(0));
    u := LeavesBehind(After(s, Stop(0)), 1);
  }

  lemma WaitingLeavesBehind() returns (u: System)
    ensures LeftBehind(u, 0, 1, TOPIC) && StandingOf(u.sessions[0]) == Waiting && |u.sessions| == 2
    ensures u.sessions[0].phase.Reading?
  {
    var s := OlderRegisters();
    u := LeavesBehind(s, 1);
  }

  /** Its call fails, and what it kept is gone with it. */
  lemma RefusedLeavesBehind() returns (u: System)
    ensures LeftBehind(u, 0, 1, TOPIC) && StandingOf(u.sessions[0]) == Refused
  {
    var s := WaitingLeavesBehind();
    Next(s, Fail(0, 0));
    u := After(s, Fail(0, 0));
  }

  /** With all quiet, a session that is connected can miss a change exactly when the channel in use belongs to a session
      that is not: one that was stopped, whose call failed, or that still waits. */
  lemma LeftBehindExactly(standing: Standing)
    ensures CanBeLeftBehind(standing) <==> standing != Live
  {
    match standing
    case Live =>
      forall s, j: nat, k: nat, t | LeftBehind(s, j, k, t) ensures StandingOf(s.sessions[j]) != Live {
        LiveChannelsKeepUp(s, j, k, t);
      }
    case Waiting => var u := WaitingLeavesBehind();
    case Refused => var u := RefusedLeavesBehind();
    case Stopped => var u := StoppedLeavesBehind();
  }
}
