/** State replication from the Backend to the Renderer, as interleaved steps: services change values and notify, the
    dispatcher drains signals, reads values and sends them on the one channel, sessions connect and replace it, and
    commands answer with values of their own, in any order. */
module Replication {
  import opened Messages
  import opened Options

  datatype Phase =
    /** The call is under way; the Backend has not registered its channel. */
    | Connecting
    /** The channel is registered; the values read so far, in the order of the topics. */
    | Reading(read: seq<Version>)
    /** The answer is on its way. */
    | Answered(initial: seq<Version>)
    | Ready
    | Failed

  /** One `connect`: what its channel still delivers, and what arrived before the answer. */
  datatype Session = Session(phase: Phase, active: bool, early: seq<Version>, inbox: seq<Version>)

  datatype System = System(
    // The Backend: every value each topic had, and the changes not announced yet.
    hist: map<Topic, seq<Value>>,
    owed: multiset<Topic>,
    // The dispatcher: queued signals, the topics of its batch left to read, and what it is to send.
    signals: seq<Topic>,
    todo: seq<Topic>,
    outbox: seq<Version>,
    channel: Option<nat>,
    sessions: seq<Session>,
    // The Renderer: command answers on their way, and its copies.
    replies: seq<Version>,
    replicas: map<Topic, Version>)

  datatype Step =
    | Change(t: Topic, v: Value)
    | Notify(t: Topic)
    | TakeBatch(n: nat)
    | ReadTopic
    | Send
    | Open
    | Replace(k: nat)
    | ReadInitial(k: nat)
    | Answer(k: nat)
    | Receive(k: nat)
    | Apply(k: nat)
    /** The call failed, or applying its answer did, after some of it. */
    | Fail(k: nat, applied: nat)
    | Stop(k: nat)
    | Respond(t: Topic)
    | Deliver(i: nat)
    /** The page is gone, with its copies. */
    | Reload

  ghost predicate Complete(hist: map<Topic, seq<Value>>) {
    forall t: Topic :: t in hist && hist[t] != []
  }

  function Latest(hist: map<Topic, seq<Value>>, t: Topic): Version
    requires Complete(hist)
  {
    Version(t, |hist[t]| - 1, hist[t][|hist[t]| - 1])
  }

  function Accept(replicas: map<Topic, Version>, v: Version): map<Topic, Version> {
    if v.topic in replicas && v.revision <= replicas[v.topic].revision then replicas else replicas[v.topic := v]
  }

  /** The Renderer's copies are one replica a topic. */
  lemma AcceptIsPerTopic(replicas: map<Topic, Version>, v: Version, t: Topic)
    ensures HeldOf(Accept(replicas, v), t)
         == if t == v.topic then Accepted(HeldOf(replicas, t), v) else HeldOf(replicas, t)
  {
  }

  function HeldOf(replicas: map<Topic, Version>, t: Topic): Option<Version> {
    if t in replicas then Some(replicas[t]) else None
  }

  function AcceptAll(replicas: map<Topic, Version>, vs: seq<Version>): map<Topic, Version> {
    if vs == [] then replicas else Accept(AcceptAll(replicas, vs[..|vs| - 1]), vs[|vs| - 1])
  }

  predicate Is(s: System, k: nat) { k < |s.sessions| }

  ghost predicate Enabled(s: System, step: Step) {
    match step
    case Change(_, _) => true
    case Notify(t) => t in s.owed
    case TakeBatch(n) => s.todo == [] && s.outbox == [] && 0 < n <= |s.signals|
    case ReadTopic => s.todo != []
    case Send => s.todo == [] && s.outbox != [] && (s.channel.Some? ==> s.channel.value < |s.sessions|)
    case Open => true
    case Replace(k) => Is(s, k) && s.sessions[k].phase.Connecting?
    case ReadInitial(k) => Is(s, k) && s.sessions[k].phase.Reading? && |s.sessions[k].phase.read| < |TOPICS|
    case Answer(k) => Is(s, k) && s.sessions[k].phase.Reading? && |s.sessions[k].phase.read| == |TOPICS|
    case Receive(k) => Is(s, k) && s.sessions[k].inbox != []
    case Apply(k) => Is(s, k) && s.sessions[k].phase.Answered?
    case Fail(k, applied) =>
      && Is(s, k) && !s.sessions[k].phase.Ready? && !s.sessions[k].phase.Failed?
      && applied <= if s.sessions[k].phase.Answered? then |s.sessions[k].phase.initial + s.sessions[k].early| else 0
    case Stop(k) => Is(s, k)
    case Respond(_) => true
    case Deliver(i) => i < |s.replies|
    case Reload => true
  }

  function With(s: System, k: nat, session: Session): System
    requires Is(s, k)
  {
    s.(sessions := s.sessions[k := session])
  }

  function After(s: System, step: Step): System
    requires Complete(s.hist) && Enabled(s, step)
  {
    match step
    case Change(t, v) => s.(hist := s.hist[t := s.hist[t] + [v]], owed := s.owed + multiset{t})
    case Notify(t) => s.(owed := s.owed - multiset{t}, signals := s.signals + [t])
    case TakeBatch(n) => s.(signals := s.signals[n..], todo := Ordered(set t | t in s.signals[..n], 0))
    case ReadTopic => s.(todo := s.todo[1..], outbox := s.outbox + [Latest(s.hist, s.todo[0])])
    case Send =>
      var sent := s.(outbox := s.outbox[1..]);
      if s.channel.None? then sent
      else
        var session := s.sessions[s.channel.value];
        With(sent, s.channel.value, session.(inbox := session.inbox + [s.outbox[0]]))
    case Open => s.(sessions := s.sessions + [Session(Connecting, true, [], [])])
    case Replace(k) => With(s.(channel := Some(k)), k, s.sessions[k].(phase := Reading([])))
    case ReadInitial(k) =>
      var read := s.sessions[k].phase.read;
      With(s, k, s.sessions[k].(phase := Reading(read + [Latest(s.hist, TOPICS[|read|])])))
    case Answer(k) => With(s, k, s.sessions[k].(phase := Answered(s.sessions[k].phase.read)))
    case Receive(k) => Received(s, k)
    case Apply(k) => Applied(s, k)
    case Fail(k, applied) =>
      var session := s.sessions[k];
      var failed := With(s, k, session.(phase := Failed, early := []));
      if session.active && session.phase.Answered?
      then failed.(replicas := AcceptAll(s.replicas, (session.phase.initial + session.early)[..applied]))
      else failed
    case Stop(k) => With(s, k, s.sessions[k].(active := false))
    case Respond(t) => s.(replies := s.replies + [Latest(s.hist, t)])
    case Deliver(i) => s.(replies := s.replies[..i] + s.replies[i + 1..], replicas := Accept(s.replicas, s.replies[i]))
    case Reload => s.(replies := [], replicas := map[], sessions := Inactive(s.sessions))
  }

  /** A message arrives: an inactive session drops it, one that waits for its answer keeps it, another routes it. */
  function Received(s: System, k: nat): System
    requires Is(s, k) && s.sessions[k].inbox != []
  {
    var session := s.sessions[k];
    var rest := session.(inbox := session.inbox[1..]);
    if !session.active then With(s, k, rest)
    else if session.phase.Ready? || session.phase.Failed?
    then With(s, k, rest).(replicas := Accept(s.replicas, session.inbox[0]))
    else With(s, k, rest.(early := session.early + [session.inbox[0]]))
  }

  /** The answer arrives: its values first, then what arrived early. An inactive session ignores it. */
  function Applied(s: System, k: nat): System
    requires Is(s, k) && s.sessions[k].phase.Answered?
  {
    var session := s.sessions[k];
    var ready := With(s, k, session.(phase := Ready, early := []));
    if session.active then ready.(replicas := AcceptAll(s.replicas, session.phase.initial + session.early)) else ready
  }

  function Inactive(sessions: seq<Session>): (r: seq<Session>)
    ensures |r| == |sessions|
    ensures forall k :: 0 <= k < |sessions| ==> r[k] == sessions[k].(active := false)
  {
    if sessions == [] then [] else [sessions[0].(active := false)] + Inactive(sessions[1..])
  }

  /** A reply carries the value of the moment and is delivered once; a page that is loaded again keeps nothing of the
      one before. */
  lemma RepliesAndReloads(s: System, t: Topic, i: nat)
    requires Complete(s.hist)
    ensures var n := |s.hist[t]|;
            After(s, Respond(t)).replies == s.replies + [Version(t, n - 1, s.hist[t][n - 1])]
    ensures i < |s.replies| ==> multiset(After(s, Deliver(i)).replies) == multiset(s.replies) - multiset{s.replies[i]}
    ensures var u := After(s, Reload);
            && u.replicas == map[] && u.replies == [] && |u.sessions| == |s.sessions|
            && forall k :: 0 <= k < |u.sessions| ==> !u.sessions[k].active
  {
    if i < |s.replies| {
      assert s.replies == s.replies[..i] + [s.replies[i]] + s.replies[i + 1..];
    }
  }

  // ---- Nothing in flight was ever untrue ----

  /** The value the topic had at that revision. */
  ghost predicate Genuine(hist: map<Topic, seq<Value>>, v: Version) {
    v.topic in hist && v.revision < |hist[v.topic]| && hist[v.topic][v.revision] == v.value
  }

  ghost predicate AllGenuine(hist: map<Topic, seq<Value>>, vs: seq<Version>) {
    forall v :: v in vs ==> Genuine(hist, v)
  }

  ghost predicate SessionGenuine(hist: map<Topic, seq<Value>>, session: Session) {
    && AllGenuine(hist, session.inbox) && AllGenuine(hist, session.early)
    && (session.phase.Reading? ==> AllGenuine(hist, session.phase.read))
    && (session.phase.Answered? ==> AllGenuine(hist, session.phase.initial))
  }

  ghost predicate ReplicasGenuine(hist: map<Topic, seq<Value>>, replicas: map<Topic, Version>) {
    forall t :: t in replicas ==> replicas[t].topic == t && Genuine(hist, replicas[t])
  }

  ghost predicate Truthful(s: System) {
    && Complete(s.hist)
    && AllGenuine(s.hist, s.outbox) && AllGenuine(s.hist, s.replies)
    && (forall k :: 0 <= k < |s.sessions| ==> SessionGenuine(s.hist, s.sessions[k]))
    && ReplicasGenuine(s.hist, s.replicas)
  }

  lemma LatestIsGenuine(hist: map<Topic, seq<Value>>, t: Topic)
    requires Complete(hist)
    ensures Genuine(hist, Latest(hist, t))
  {
  }

  lemma {:induction false} AcceptAllGenuine(hist: map<Topic, seq<Value>>, replicas: map<Topic, Version>,
                                            vs: seq<Version>)
    requires ReplicasGenuine(hist, replicas) && AllGenuine(hist, vs)
    ensures ReplicasGenuine(hist, AcceptAll(replicas, vs))
  {
    if vs != [] {
      var rest := vs[..|vs| - 1];
      assert forall v :: v in rest ==> v in vs;
      AcceptAllGenuine(hist, replicas, rest);
      assert vs[|vs| - 1] in vs;
    }
  }

  /** More values never make a version untrue. */
  lemma StaysGenuine(hist: map<Topic, seq<Value>>, t: Topic, v: Value, vs: seq<Version>)
    requires t in hist && AllGenuine(hist, vs)
    ensures AllGenuine(hist[t := hist[t] + [v]], vs)
  {
  }

  lemma SessionStaysGenuine(hist: map<Topic, seq<Value>>, t: Topic, v: Value, session: Session)
    requires t in hist && SessionGenuine(hist, session)
    ensures SessionGenuine(hist[t := hist[t] + [v]], session)
  {
  }

  lemma ChangeIsTruthful(s: System, t: Topic, v: Value)
    requires Truthful(s)
    ensures Truthful(After(s, Change(t, v)))
  {
    StaysGenuine(s.hist, t, v, s.outbox);
    StaysGenuine(s.hist, t, v, s.replies);
    forall k | 0 <= k < |s.sessions| ensures SessionGenuine(After(s, Change(t, v)).hist, s.sessions[k]) {
      SessionStaysGenuine(s.hist, t, v, s.sessions[k]);
    }
  }

  lemma SessionReplaced(s: System, k: nat, session: Session)
    requires Truthful(s) && Is(s, k) && SessionGenuine(s.hist, session)
    ensures Truthful(With(s, k, session))
  {
    hide SessionGenuine, AllGenuine, ReplicasGenuine;
  }

  lemma ReplicasReplaced(s: System, replicas: map<Topic, Version>)
    requires Truthful(s) && ReplicasGenuine(s.hist, replicas)
    ensures Truthful(s.(replicas := replicas))
  {
    hide SessionGenuine, AllGenuine, ReplicasGenuine;
  }

  lemma ReceiveIsTruthful(s: System, k: nat)
    requires Truthful(s) && Enabled(s, Receive(k))
    ensures Truthful(After(s, Receive(k)))
  {
    var session := s.sessions[k];
    assert session.inbox[0] in session.inbox;
    var rest := session.(inbox := session.inbox[1..]);
    SessionReplaced(s, k, rest);
    SessionReplaced(s, k, rest.(early := session.early + [session.inbox[0]]));
    ReplicasReplaced(With(s, k, rest), Accept(s.replicas, session.inbox[0]));
  }

  lemma ApplyIsTruthful(s: System, k: nat)
    requires Truthful(s) && Enabled(s, Apply(k))
    ensures Truthful(After(s, Apply(k)))
  {
    var session := s.sessions[k];
    AcceptAllGenuine(s.hist, s.replicas, session.phase.initial + session.early);
    SessionReplaced(s, k, session.(phase := Ready, early := []));
    ReplicasReplaced(With(s, k, session.(phase := Ready, early := [])),
                     AcceptAll(s.replicas, session.phase.initial + session.early));
  }

  lemma FailIsTruthful(s: System, k: nat, applied: nat)
    requires Truthful(s) && Enabled(s, Fail(k, applied))
    ensures Truthful(After(s, Fail(k, applied)))
  {
    var session := s.sessions[k];
    var failed := With(s, k, session.(phase := Failed, early := []));
    SessionReplaced(s, k, session.(phase := Failed, early := []));
    if session.phase.Answered? {
      var all := (session.phase.initial + session.early)[..applied];
      AcceptAllGenuine(s.hist, s.replicas, all);
      ReplicasReplaced(failed, AcceptAll(s.replicas, all));
    }
  }

  lemma SessionStepIsTruthful(s: System, step: Step)
    requires Truthful(s) && Enabled(s, step)
    requires step.Replace? || step.ReadInitial? || step.Answer? || step.Receive? || step.Apply? || step.Fail?
      || step.Stop?
    ensures Truthful(After(s, step))
  {
    hide Truthful;
    match step
    case Replace(k) =>
      SessionIsGenuine(s, k);
      SessionReplaced(s.(channel := Some(k)), k, s.sessions[k].(phase := Reading([])));
    case ReadInitial(k) =>
      SessionIsGenuine(s, k);
      var read := s.sessions[k].phase.read;
      LatestIsGenuine(s.hist, TOPICS[|read|]);
      SessionReplaced(s, k, s.sessions[k].(phase := Reading(read + [Latest(s.hist, TOPICS[|read|])])));
    case Answer(k) =>
      SessionIsGenuine(s, k);
      SessionReplaced(s, k, s.sessions[k].(phase := Answered(s.sessions[k].phase.read)));
    case Receive(k) => ReceiveIsTruthful(s, k);
    case Apply(k) => ApplyIsTruthful(s, k);
    case Fail(k, applied) => FailIsTruthful(s, k, applied);
    case Stop(k) =>
      SessionIsGenuine(s, k);
      SessionReplaced(s, k, s.sessions[k].(active := false));
  }

  lemma SessionIsGenuine(s: System, k: nat)
    requires Truthful(s) && Is(s, k)
    ensures Complete(s.hist) && SessionGenuine(s.hist, s.sessions[k]) && Truthful(s.(channel := Some(k)))
  {
  }

  lemma OtherStepIsTruthful(s: System, step: Step)
    requires Truthful(s) && Enabled(s, step)
    requires step.Notify? || step.TakeBatch? || step.ReadTopic? || step.Send? || step.Open? || step.Respond?
      || step.Deliver? || step.Reload?
    ensures Truthful(After(s, step))
  {
    match step
    case ReadTopic => LatestIsGenuine(s.hist, s.todo[0]);
    case Respond(t) => LatestIsGenuine(s.hist, t);
    case _ =>
  }

  /** Every value in flight or kept is the one the Backend held at its revision, after any step. */
  lemma StaysTruthful(s: System, step: Step)
    requires Truthful(s) && Enabled(s, step)
    ensures Truthful(After(s, step))
  {
    hide Truthful, After;
    if step.Change? {
      ChangeIsTruthful(s, step.t, step.v);
    } else if step.Replace? || step.ReadInitial? || step.Answer? || step.Receive? || step.Apply? || step.Fail?
        || step.Stop? {
      SessionStepIsTruthful(s, step);
    } else {
      OtherStepIsTruthful(s, step);
    }
  }

  // ---- The newest value always reaches the Renderer ----

  ghost predicate Wellformed(s: System) { Formed(s.channel, s.sessions) }

  ghost predicate Formed(channel: Option<nat>, sessions: seq<Session>) {
    && (channel.Some? ==> channel.value < |sessions| && !sessions[channel.value].phase.Connecting?)
    && (forall k :: 0 <= k < |sessions| ==> SessionFormed(sessions[k]))
  }

  ghost predicate SessionFormed(session: Session) {
    && (session.phase.Reading? ==> InOrder(session.phase.read))
    && (session.phase.Answered? ==> InOrder(session.phase.initial) && |session.phase.initial| == |TOPICS|)
    && (session.phase.Ready? || session.phase.Failed? ==> session.early == [])
  }

  ghost predicate InOrder(read: seq<Version>) {
    |read| <= |TOPICS| && forall i :: 0 <= i < |read| ==> read[i].topic == TOPICS[i]
  }

  /** `v` is among `vs`. */
  ghost predicate Carries(vs: seq<Version>, v: Version) { v in vs }

  /** The newest value of `t` is still on its way to session `k`, or will be sent. */
  ghost predicate Underway(s: System, k: nat, t: Topic)
    requires Complete(s.hist) && Is(s, k)
  {
    || t in s.owed || t in s.signals || t in s.todo
    || Carries(s.outbox, Latest(s.hist, t)) || Carries(s.sessions[k].inbox, Latest(s.hist, t))
        || Carries(s.sessions[k].early, Latest(s.hist, t))
  }

  /** The Renderer's copy of `t` is the newest. */
  ghost predicate Has(s: System, t: Topic)
    requires Complete(s.hist)
  {
    t in s.replicas && s.replicas[t] == Latest(s.hist, t)
  }

  /** Session `k`, whose channel is the one in use, has the newest value of `t`, or it is underway. */
  ghost predicate Reaches(s: System, k: nat, t: Topic)
    requires Complete(s.hist)
  {
    s.channel == Some(k) && Is(s, k) && s.sessions[k].active ==>
      match s.sessions[k].phase
      case Connecting => true
      case Reading(read) => Rank(t) < |read| ==> Underway(s, k, t) || read[Rank(t)] == Latest(s.hist, t)
      case Answered(initial) => Underway(s, k, t) || (Rank(t) < |initial| && initial[Rank(t)] == Latest(s.hist, t))
      case Ready => Underway(s, k, t) || Has(s, t)
      case Failed => true
  }

  /** Nothing newer than the newest can be accepted over it. */
  lemma {:induction false} NewestStays(hist: map<Topic, seq<Value>>, replicas: map<Topic, Version>, vs: seq<Version>,
                                       t: Topic)
    requires Complete(hist) && ReplicasGenuine(hist, replicas) && AllGenuine(hist, vs)
    requires (t in replicas && replicas[t] == Latest(hist, t)) || Latest(hist, t) in vs
    ensures t in AcceptAll(replicas, vs) && AcceptAll(replicas, vs)[t] == Latest(hist, t)
  {
    if vs != [] {
      var rest, last := vs[..|vs| - 1], vs[|vs| - 1];
      assert vs == rest + [last];
      assert AllGenuine(hist, rest);
      assert Genuine(hist, last);
      AcceptAllGenuine(hist, replicas, rest);
      var before := AcceptAll(replicas, rest);
      if last != Latest(hist, t) {
        NewestStays(hist, replicas, rest, t);
      } else if t in before {
        assert Genuine(hist, before[t]);
      }
    }
  }

  lemma OneAccepted(replicas: map<Topic, Version>, v: Version)
    ensures AcceptAll(replicas, [v]) == Accept(replicas, v)
  {
    assert [v][..0] == [];
    assert AcceptAll(replicas, []) == replicas;
  }

  lemma SessionPut(channel: Option<nat>, sessions: seq<Session>, k: nat, session: Session)
    requires Formed(channel, sessions) && k < |sessions|
    requires SessionFormed(sessions[k]) ==> SessionFormed(session)
    requires !sessions[k].phase.Connecting? ==> !session.phase.Connecting?
    ensures Formed(channel, sessions[k := session])
  {
    hide SessionFormed;
  }

  lemma SessionStepWellformed(s: System, step: Step)
    requires Complete(s.hist) && Wellformed(s) && Enabled(s, step)
    requires step.ReadInitial? || step.Answer? || step.Receive? || step.Apply? || step.Fail? || step.Stop?
    ensures Wellformed(After(s, step))
  {
    hide AcceptAll, Accept, Latest, Complete, Formed;
    if step.ReadInitial? {
      LatestTopic(s.hist, TOPICS[|s.sessions[step.k].phase.read|]);
    }
    SessionPut(s.channel, s.sessions, step.k, After(s, step).sessions[step.k]);
  }

  lemma ReplaceIsWellformed(s: System, k: nat)
    requires Wellformed(s) && Enabled(s, Replace(k)) && Complete(s.hist)
    ensures Wellformed(After(s, Replace(k)))
  {
    assert SessionFormed(After(s, Replace(k)).sessions[k]);
    hide SessionFormed;
  }

  lemma SendIsWellformed(s: System)
    requires Wellformed(s) && Enabled(s, Send) && Complete(s.hist)
    ensures Wellformed(After(s, Send))
  {
    if s.channel.Some? {
      hide Formed;
      SessionPut(s.channel, s.sessions, s.channel.value, After(s, Send).sessions[s.channel.value]);
    }
  }

  lemma StaysWellformed(s: System, step: Step)
    requires Complete(s.hist) && Wellformed(s) && Enabled(s, step)
    ensures Wellformed(After(s, step))
  {
    hide AcceptAll, Accept, Ordered, Latest, Complete, Received, Applied;
    if step.Replace? {
      ReplaceIsWellformed(s, step.k);
    } else if step.Send? {
      SendIsWellformed(s);
    } else if step.ReadInitial? || step.Answer? || step.Receive? || step.Apply? || step.Fail? || step.Stop? {
      SessionStepWellformed(s, step);
    }
  }

  lemma LatestTopic(hist: map<Topic, seq<Value>>, t: Topic)
    requires Complete(hist)
    ensures Latest(hist, t).topic == t
  {
  }

  /** Where nothing about session `k` changed but what is underway to it. */
  lemma UnderwayIsEnough(s: System, u: System, k: nat, t: Topic)
    requires Complete(s.hist) && u.hist == s.hist && u.channel == s.channel
    requires s.channel == Some(k) ==> Is(s, k)
    requires Is(s, k) ==>
      && Is(u, k) && u.sessions[k].phase == s.sessions[k].phase && u.sessions[k].active == s.sessions[k].active
    requires s.channel == Some(k) && s.sessions[k].active && Underway(s, k, t) ==>
      Underway(u, k, t) || s.sessions[k].phase.Failed? || (s.sessions[k].phase.Ready? && Has(u, t))
    requires Has(s, t) ==> Has(u, t)
    requires Reaches(s, k, t)
    ensures Reaches(u, k, t)
  {
    hide Underway, Has, Latest, Complete;
  }

  lemma ChangeReaches(s: System, k: nat, t: Topic, changed: Topic, v: Value)
    requires Complete(s.hist) && Reaches(s, k, t)
    ensures Reaches(After(s, Change(changed, v)), k, t)
  {
    assert t != changed ==> Latest(After(s, Change(changed, v)).hist, t) == Latest(s.hist, t);
  }

  lemma NotifyReaches(s: System, n: Topic, k: nat, t: Topic)
    requires Complete(s.hist) && Wellformed(s) && Enabled(s, Notify(n)) && Reaches(s, k, t)
    ensures Reaches(After(s, Notify(n)), k, t)
  {
    UnderwayIsEnough(s, After(s, Notify(n)), k, t);
  }

  lemma TakeBatchReaches(s: System, n: nat, k: nat, t: Topic)
    requires Complete(s.hist) && Wellformed(s) && Enabled(s, TakeBatch(n)) && Reaches(s, k, t)
    ensures Reaches(After(s, TakeBatch(n)), k, t)
  {
    OrderedHasAll(set x | x in s.signals[..n], 0, t);
    assert s.signals == s.signals[..n] + s.signals[n..];
    hide Ordered, Rank, Latest, SessionFormed;
    UnderwayIsEnough(s, After(s, TakeBatch(n)), k, t);
  }

  lemma ReadTopicReaches(s: System, k: nat, t: Topic)
    requires Complete(s.hist) && Wellformed(s) && Enabled(s, ReadTopic) && Reaches(s, k, t)
    ensures Reaches(After(s, ReadTopic), k, t)
  {
    hide SessionFormed;
    assert s.todo == [s.todo[0]] + s.todo[1..];
    UnderwayIsEnough(s, After(s, ReadTopic), k, t);
  }

  lemma SendReaches(s: System, k: nat, t: Topic)
    requires Complete(s.hist) && Wellformed(s) && Enabled(s, Send) && Reaches(s, k, t)
    ensures Reaches(After(s, Send), k, t)
  {
    hide SessionFormed;
    assert s.outbox == [s.outbox[0]] + s.outbox[1..];
    var u := After(s, Send);
    if s.channel == Some(k) {
      var inbox := s.sessions[k].inbox;
      assert u.sessions[k].inbox == inbox + [s.outbox[0]];
    }
    UnderwayIsEnough(s, u, k, t);
  }

  lemma ReadInitialReaches(s: System, j: nat, k: nat, t: Topic)
    requires Complete(s.hist) && Wellformed(s) && Enabled(s, ReadInitial(j)) && Reaches(s, k, t)
    ensures Reaches(After(s, ReadInitial(j)), k, t)
  {
    hide SessionFormed;
    assert Rank(TOPICS[|s.sessions[j].phase.read|]) == |s.sessions[j].phase.read|;
  }

  lemma AnswerReaches(s: System, j: nat, k: nat, t: Topic)
    requires Complete(s.hist) && Wellformed(s) && Enabled(s, Answer(j)) && Reaches(s, k, t)
    ensures Reaches(After(s, Answer(j)), k, t)
  {
    hide SessionFormed, Latest;
  }

  lemma SessionReaches(s: System, step: Step, k: nat, t: Topic)
    requires Complete(s.hist) && Wellformed(s) && Enabled(s, step) && Reaches(s, k, t)
    requires step.Open? || step.Replace? || step.Stop? || step.Respond? || step.Reload?
    ensures Reaches(After(s, step), k, t)
  {
    hide Latest, Rank;
  }

  /** Accepting what is true never loses the newest, and accepting the newest gains it. */
  lemma AcceptingHas(s: System, u: System, vs: seq<Version>, t: Topic)
    requires Truthful(s) && AllGenuine(s.hist, vs) && u.hist == s.hist && u.replicas == AcceptAll(s.replicas, vs)
    ensures Complete(s.hist) && (Has(s, t) || Latest(s.hist, t) in vs ==> Has(u, t))
  {
    if Has(s, t) || Latest(s.hist, t) in vs {
      NewestStays(s.hist, s.replicas, vs, t);
    }
  }

  lemma ReceiveReaches(s: System, j: nat, k: nat, t: Topic)
    requires Truthful(s) && Wellformed(s) && Enabled(s, Receive(j)) && Complete(s.hist) && Reaches(s, k, t)
    ensures Reaches(After(s, Receive(j)), k, t)
  {
    var u, v := After(s, Receive(j)), s.sessions[j].inbox[0];
    assert s.sessions[j].inbox == [v] + s.sessions[j].inbox[1..];
    SessionIsGenuine(s, j);
    OneAccepted(s.replicas, v);
    if u.replicas != s.replicas || (s.sessions[j].active
                                    && (s.sessions[j].phase.Ready? || s.sessions[j].phase.Failed?)) {
      AcceptingHas(s, u, [v], t);
    }
    hide Truthful, SessionFormed, Complete, Latest, Accept, AcceptAll, Reaches;
    UnderwayIsEnough(s, u, k, t);
  }

  lemma ApplyReaches(s: System, j: nat, k: nat, t: Topic)
    requires Truthful(s) && Wellformed(s) && Enabled(s, Apply(j)) && Complete(s.hist) && Reaches(s, k, t)
    ensures Reaches(After(s, Apply(j)), k, t)
  {
    var session, u := s.sessions[j], After(s, Apply(j));
    var all := session.phase.initial + session.early;
    SessionIsGenuine(s, j);
    if session.active {
      AcceptingHas(s, u, all, t);
    }
    hide Truthful, SessionFormed, Complete, Latest, Accept, AcceptAll;
    if j != k {
      UnderwayIsEnough(s, u, k, t);
    } else if Rank(t) < |session.phase.initial| {
      assert session.phase.initial[Rank(t)] in all;
    }
  }

  lemma FailReaches(s: System, j: nat, applied: nat, k: nat, t: Topic)
    requires Truthful(s) && Wellformed(s) && Enabled(s, Fail(j, applied)) && Complete(s.hist) && Reaches(s, k, t)
    ensures Reaches(After(s, Fail(j, applied)), k, t)
  {
    var session, u := s.sessions[j], After(s, Fail(j, applied));
    SessionIsGenuine(s, j);
    if session.active && session.phase.Answered? {
      AcceptingHas(s, u, (session.phase.initial + session.early)[..applied], t);
    }
    hide Truthful, SessionFormed, Complete, Latest, Accept, AcceptAll;
    if j != k {
      UnderwayIsEnough(s, u, k, t);
    }
  }

  lemma DeliverReaches(s: System, i: nat, k: nat, t: Topic)
    requires Truthful(s) && Wellformed(s) && Enabled(s, Deliver(i)) && Complete(s.hist) && Reaches(s, k, t)
    ensures Reaches(After(s, Deliver(i)), k, t)
  {
    var u := After(s, Deliver(i));
    OneAccepted(s.replicas, s.replies[i]);
    AcceptingHas(s, u, [s.replies[i]], t);
    hide Truthful, SessionFormed, Complete, Latest, Accept, AcceptAll;
    UnderwayIsEnough(s, u, k, t);
  }

  lemma IsComplete(s: System)
    requires Truthful(s)
    ensures Complete(s.hist)
  {
  }

  /** What every interleaving keeps. */
  ghost predicate Inv(s: System) {
    Truthful(s) && Wellformed(s) && forall k: nat, t: Topic :: Reaches(s, k, t)
  }

  lemma StaysReaching(s: System, step: Step, k: nat, t: Topic)
    requires Truthful(s) && Wellformed(s) && Enabled(s, step) && Reaches(s, k, t)
    ensures Complete(After(s, step).hist) && Reaches(After(s, step), k, t)
  {
    IsComplete(s);
    StaysTruthful(s, step);
    IsComplete(After(s, step));
    hide After, Reaches, Wellformed, Truthful, Complete;
    match step
    case Change(changed, v) => ChangeReaches(s, k, t, changed, v);
    case Receive(j) => ReceiveReaches(s, j, k, t);
    case Apply(j) => ApplyReaches(s, j, k, t);
    case Fail(j, applied) => FailReaches(s, j, applied, k, t);
    case Deliver(i) => DeliverReaches(s, i, k, t);
    case Notify(n) => NotifyReaches(s, n, k, t);
    case TakeBatch(n) => TakeBatchReaches(s, n, k, t);
    case ReadTopic => ReadTopicReaches(s, k, t);
    case Send => SendReaches(s, k, t);
    case ReadInitial(j) => ReadInitialReaches(s, j, k, t);
    case Answer(j) => AnswerReaches(s, j, k, t);
    case _ => SessionReaches(s, step, k, t);
  }

  lemma InvKept(s: System, step: Step)
    requires Inv(s) && Enabled(s, step)
    ensures Inv(After(s, step))
  {
    hide Truthful, Wellformed, Reaches, After;
    StaysTruthful(s, step);
    IsComplete(s);
    IsComplete(After(s, step));
    StaysWellformed(s, step);
    forall k: nat, t: Topic ensures Reaches(After(s, step), k, t) {
      StaysReaching(s, step, k, t);
    }
  }

  // ---- Whole runs ----

  function Init(values: map<Topic, Value>): System {
    System(map t | t in values :: [values[t]], multiset{}, [], [], [], None, [], [], map[])
  }

  ghost predicate CanRun(s: System, steps: seq<Step>)
    requires Complete(s.hist)
    decreases |steps|
  {
    steps == [] ||
    (Enabled(s, steps[0]) && Complete(After(s, steps[0]).hist) && CanRun(After(s, steps[0]), steps[1..]))
  }

  ghost function Run(s: System, steps: seq<Step>): System
    requires Complete(s.hist) && CanRun(s, steps)
    decreases |steps|
  {
    if steps == [] then s else Run(After(s, steps[0]), steps[1..])
  }

  lemma {:induction false} InvAlong(s: System, steps: seq<Step>)
    requires Complete(s.hist) && CanRun(s, steps) && Inv(s)
    ensures Inv(Run(s, steps))
    decreases |steps|
  {
    hide Inv, After;
    if steps != [] {
      InvKept(s, steps[0]);
      InvAlong(After(s, steps[0]), steps[1..]);
    }
  }

  lemma InitIsInv(values: map<Topic, Value>)
    requires forall t: Topic :: t in values
    ensures Complete(Init(values).hist) && Inv(Init(values))
  {
  }

  /** Convergence: however changes, batches, channels, early messages, answers and command replies interleaved, once
      nothing of topic `t` is underway to the connected session whose channel is in use, its copy is the Backend's
      current value. */
  lemma Converges(values: map<Topic, Value>, steps: seq<Step>, k: nat, t: Topic)
    requires (forall x: Topic :: x in values) && Complete(Init(values).hist) && CanRun(Init(values), steps)
    ensures var s := Run(Init(values), steps);
            && Complete(s.hist)
            && (s.channel == Some(k) && Is(s, k) && s.sessions[k].active && s.sessions[k].phase.Ready?
                && !Underway(s, k, t) ==>
                  && t in s.replicas && s.replicas[t] == Latest(s.hist, t)
                  && s.hist[t] != [] && s.replicas[t].value == s.hist[t][|s.hist[t]| - 1])
  {
    InitIsInv(values);
    InvAlong(Init(values), steps);
    var s := Run(Init(values), steps);
    IsComplete(s);
    assert Reaches(s, k, t);
  }

  /** Safety: at any time a copy holds a value the Backend held, at the revision it held it. */
  lemma CopiesAreGenuine(values: map<Topic, Value>, steps: seq<Step>, t: Topic)
    requires (forall x: Topic :: x in values) && Complete(Init(values).hist) && CanRun(Init(values), steps)
    ensures var s := Run(Init(values), steps);
            t in s.replicas ==> s.replicas[t].topic == t && Genuine(s.hist, s.replicas[t])
  {
    InitIsInv(values);
    InvAlong(Init(values), steps);
  }

  lemma {:induction false} AcceptingGrows(replicas: map<Topic, Version>, vs: seq<Version>, t: Topic)
    requires t in replicas
    ensures t in AcceptAll(replicas, vs) && replicas[t].revision <= AcceptAll(replicas, vs)[t].revision
  {
    if vs != [] {
      AcceptingGrows(replicas, vs[..|vs| - 1], t);
    }
  }

  /** A copy's revision never decreases, as long as the page lives. */
  lemma RevisionsGrow(s: System, step: Step, t: Topic)
    requires Complete(s.hist) && Enabled(s, step) && !step.Reload? && t in s.replicas
    ensures t in After(s, step).replicas && s.replicas[t].revision <= After(s, step).replicas[t].revision
  {
    hide Latest, Ordered;
    if step.Apply? {
      var session := s.sessions[step.k];
      AcceptingGrows(s.replicas, session.phase.initial + session.early, t);
    } else if step.Fail? && s.sessions[step.k].phase.Answered? {
      var session := s.sessions[step.k];
      AcceptingGrows(s.replicas, (session.phase.initial + session.early)[..step.applied], t);
    }
  }

  // ---- The order of arrival does not matter ----

  /** What accepting versions leaves: one of them or what was there, and none is newer. */
  lemma {:induction false} NewestIsKept(replicas: map<Topic, Version>, vs: seq<Version>, t: Topic)
    requires forall x :: x in replicas ==> replicas[x].topic == x
    ensures var after := AcceptAll(replicas, vs);
            && (t in after <==> t in replicas || exists v :: v in vs && v.topic == t)
            && (t in after ==> after[t].topic == t && (after[t] in vs || (t in replicas && after[t] == replicas[t])))
            && (t in after ==> forall v :: v in vs && v.topic == t ==> v.revision <= after[t].revision)
            && (t in replicas ==> replicas[t].revision <= after[t].revision)
  {
    if vs != [] {
      var rest, last := vs[..|vs| - 1], vs[|vs| - 1];
      NewestIsKept(replicas, rest, t);
      assert vs == rest + [last];
    }
  }

  /** Command replies, early messages and pushed values may arrive in any order: the copies end the same. */
  lemma OrderDoesNotMatter(hist: map<Topic, seq<Value>>, replicas: map<Topic, Version>, a: seq<Version>,
                           b: seq<Version>)
    requires ReplicasGenuine(hist, replicas) && AllGenuine(hist, a) && multiset(a) == multiset(b)
    ensures AcceptAll(replicas, a) == AcceptAll(replicas, b)
  {
    var ra, rb := AcceptAll(replicas, a), AcceptAll(replicas, b);
    assert forall v :: v in a <==> v in multiset(a);
    assert forall v :: v in b <==> v in multiset(b);
    forall t: Topic ensures (t in ra <==> t in rb) && (t in ra ==> ra[t] == rb[t]) {
      NewestIsKept(replicas, a, t);
      NewestIsKept(replicas, b, t);
      if t in ra {
        assert Genuine(hist, ra[t]) && Genuine(hist, rb[t]);
        assert ra[t].revision == rb[t].revision;
      }
    }
  }

  // ---- Everything underway arrives ----

  /** Session `k` is connected, and its channel is the one in use. */
  ghost predicate Connected(s: System, k: nat) {
    s.channel == Some(k) && Is(s, k) && s.sessions[k].active && s.sessions[k].phase.Ready?
  }

  /** How many steps what is underway to session `k` is away, at most. */
  function Load(s: System, k: nat): nat
    requires Is(s, k)
  {
    5 * |s.owed| + 4 * |s.signals| + 3 * |s.todo| + 2 * |s.outbox| + |s.sessions[k].inbox|
  }

  predicate Delivers(step: Step) {
    step.Notify? || step.TakeBatch? || step.ReadTopic? || step.Send? || step.Receive?
  }

  lemma NotifyLightens(s: System, k: nat) returns (t: Topic)
    requires Complete(s.hist) && Connected(s, k) && s.owed != multiset{}
    ensures Enabled(s, Notify(t))
    ensures var u := After(s, Notify(t)); Connected(u, k) && Load(u, k) < Load(s, k) && u.hist == s.hist
  {
    t :| t in s.owed;
    assert s.owed == (s.owed - multiset{t}) + multiset{t};
  }

  lemma OnlyTopic(signals: seq<Topic>, t: Topic)
    requires signals == [t]
    ensures (set x | x in signals) == {t}
  {
  }

  lemma TakeBatchLightens(s: System, k: nat)
    requires Complete(s.hist) && Connected(s, k) && s.todo == [] && s.outbox == [] && s.signals != []
    ensures Enabled(s, TakeBatch(1))
    ensures var u := After(s, TakeBatch(1)); Connected(u, k) && Load(u, k) < Load(s, k) && u.hist == s.hist
  {
    hide Ordered, Rank, Received, Applied, Inactive, AcceptAll, Accept;
    assert s.signals[..1] == [s.signals[0]];
    OnlyTopic(s.signals[..1], s.signals[0]);
    OrderedOne(s.signals[0], 0);
  }

  lemma OtherLightens(s: System, k: nat, step: Step)
    requires Complete(s.hist) && Connected(s, k)
    requires (step == ReadTopic && s.todo != [])
          || (step == Send && s.todo == [] && s.outbox != [])
          || (step == Receive(k) && s.sessions[k].inbox != [])
    ensures Enabled(s, step)
    ensures var u := After(s, step); Connected(u, k) && Load(u, k) < Load(s, k) && u.hist == s.hist
  {
    hide Ordered, Latest, AcceptAll, Accept, Inactive, Applied;
  }

  /** What is underway can always be brought nearer. */
  lemma SomethingDelivers(s: System, k: nat) returns (step: Step)
    requires Complete(s.hist) && Connected(s, k) && Load(s, k) > 0
    ensures Delivers(step) && Enabled(s, step)
    ensures var u := After(s, step); Connected(u, k) && Load(u, k) < Load(s, k) && u.hist == s.hist
  {
    hide After, Enabled, Complete, Connected;
    if s.todo != [] {
      step := ReadTopic;
    } else if s.outbox != [] {
      step := Send;
    } else if s.signals != [] {
      step := TakeBatch(1);
      TakeBatchLightens(s, k);
      return;
    } else if s.owed != multiset{} {
      var t := NotifyLightens(s, k);
      return Notify(t);
    } else {
      step := Receive(k);
    }
    OtherLightens(s, k, step);
  }

  ghost predicate AllDeliver(steps: seq<Step>) {
    forall i :: 0 <= i < |steps| ==> Delivers(steps[i])
  }

  /** From any state, deliveries alone, and no more of them than what is underway weighs, bring every copy of a
      connected session up to the Backend's current values. */
  lemma {:induction false} DeliveriesConverge(s: System, k: nat) returns (steps: seq<Step>)
    requires Inv(s) && Connected(s, k)
    ensures Complete(s.hist) && CanRun(s, steps) && AllDeliver(steps) && |steps| <= Load(s, k)
    ensures var u := Run(s, steps);
            u.hist == s.hist && forall t: Topic :: t in u.replicas && u.replicas[t] == Latest(s.hist, t)
    decreases Load(s, k)
  {
    hide Truthful, Wellformed, Reaches, After, Enabled, Latest, Complete;
    IsComplete(s);
    if Load(s, k) == 0 {
      steps := [];
      RunFirst(s, steps);
      forall t: Topic ensures t in s.replicas && s.replicas[t] == Latest(s.hist, t) {
        AllArrived(s, k, t);
      }
    } else {
      var step := SomethingDelivers(s, k);
      InvKept(s, step);
      var u := After(s, step);
      var rest := DeliveriesConverge(u, k);
      steps := [step] + rest;
      assert steps[1..] == rest;
      RunFirst(s, steps);
    }
  }

  lemma AllArrived(s: System, k: nat, t: Topic)
    requires Inv(s) && Connected(s, k) && Load(s, k) == 0
    ensures Complete(s.hist) && t in s.replicas && s.replicas[t] == Latest(s.hist, t)
  {
    assert SessionFormed(s.sessions[k]);
    assert Reaches(s, k, t);
    assert !Underway(s, k, t) by {
      hide Latest;
    }
  }

  lemma RunFirst(s: System, steps: seq<Step>)
    requires Complete(s.hist)
    ensures steps == [] ==> CanRun(s, steps) && Run(s, steps) == s
    ensures steps != [] && Enabled(s, steps[0]) && Complete(After(s, steps[0]).hist) ==>
      CanRun(After(s, steps[0]), steps[1..]) ==>
        CanRun(s, steps) && Run(s, steps) == Run(After(s, steps[0]), steps[1..])
  {
  }
}
