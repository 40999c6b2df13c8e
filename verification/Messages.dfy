/** What the Backend tells the Renderer: state topics with revisions, occurrences and positions, and how the
    Renderer keeps the newest of each topic. */
module Messages {
  import opened Options

  type Value = int

  /** The state topics, in the order they are sent and read in. */
  datatype Topic = Playback | Queue | LibraryScan | Waveform | Appearance

  const TOPICS: seq<Topic> := [Playback, Queue, LibraryScan, Waveform, Appearance]

  function Rank(t: Topic): (i: nat)
    ensures i < |TOPICS| && TOPICS[i] == t
  {
    match t
    case Playback => 0
    case Queue => 1
    case LibraryScan => 2
    case Waveform => 3
    case Appearance => 4
  }

  /** Whether `a` is declared before `b`. */
  predicate Sooner(a: Topic, b: Topic): (sooner: bool)
    ensures sooner <==> Rank(a) < Rank(b)
  {
    match b
    case Playback => false
    case Queue => a == Playback
    case LibraryScan => a == Playback || a == Queue
    case Waveform => a != Waveform && a != Appearance
    case Appearance => a != Appearance
  }

  /** A topic's value at a revision. */
  datatype Version = Version(topic: Topic, revision: nat, value: Value)

  // ---- One topic's value in the Backend ----

  class Versioned {
    var revision: nat
    var value: Value
    /** Every value it had, by revision. */
    ghost var history: seq<Value>

    ghost predicate Valid()
      reads this
    {
      |history| == revision + 1 && history[revision] == value
    }

    constructor (value: Value)
      ensures Valid() && revision == 0 && history == [value]
    {
      this.value, revision, history := value, 0, [value];
    }

    /** The revision grows by one with every change, and the new value is the one it stands for. */
    method Update(change: Value -> Value)
      requires Valid()
      modifies this
      ensures Valid() && history == old(history) + [change(old(value))]
    {
      value := change(value);
      revision := revision + 1;
      history := history + [value];
    }
  }

  // ---- One topic's copy in the Renderer ----

  /** Of two versions the one of the higher revision. */
  function Accepted(current: Option<Version>, incoming: Version): Option<Version> {
    if current.Some? && incoming.revision <= current.value.revision then current else Some(incoming)
  }

  class Replica {
    var current: Option<Version>

    constructor ()
      ensures current == None
    {
      current := None;
    }

    /** Says whether the held version changed. Its revision never falls. */
    method Accept(incoming: Version) returns (kept: bool)
      modifies this
      ensures current == Accepted(old(current), incoming) && kept == (current != old(current))
      ensures current.Some? && incoming.revision <= current.value.revision
      ensures old(current).Some? ==> old(current).value.revision <= current.value.revision
      ensures current == old(current) || current == Some(incoming)
      ensures kept ==> old(current).None? || old(current).value.revision < incoming.revision
    {
      if current.Some? && incoming.revision <= current.value.revision {
        return false;
      }
      current := Some(incoming);
      kept := true;
    }
  }

  // ---- A batch of signals ----

  datatype Signal<O> = State(topic: Topic) | Position | Happened(occurrence: O)

  datatype Message<O> =
    | StateMessage(version: Version)
    | PositionMessage(position: int)
    | OccurrenceMessage(occurrence: O)

  /** The occurrences of a batch, as they arrived. */
  function Occurrences<O>(batch: seq<Signal<O>>): seq<Message<O>> {
    if batch == [] then []
    else
      Occurrences(batch[..|batch| - 1])
      + if batch[|batch| - 1].Happened? then [OccurrenceMessage(batch[|batch| - 1].occurrence)] else []
  }

  /** How many of the signals are occurrences. */
  function CountHappened<O>(batch: seq<Signal<O>>): nat {
    if batch == [] then 0
    else CountHappened(batch[..|batch| - 1]) + if batch[|batch| - 1].Happened? then 1 else 0
  }

  /** Every occurrence has its own place, the number of those that arrived before it. */
  lemma {:induction false} OccurrencesInOrder<O>(batch: seq<Signal<O>>)
    ensures |Occurrences(batch)| == CountHappened(batch)
    ensures forall k :: 0 <= k < |Occurrences(batch)| ==> Occurrences(batch)[k].OccurrenceMessage?
    ensures forall i :: 0 <= i < |batch| && batch[i].Happened? ==>
      && CountHappened(batch[..i]) < |Occurrences(batch)|
      && Occurrences(batch)[CountHappened(batch[..i])] == OccurrenceMessage(batch[i].occurrence)
  {
    if batch != [] {
      var n := |batch| - 1;
      OccurrencesInOrder(batch[..n]);
      forall i | 0 <= i < |batch| && batch[i].Happened?
        ensures CountHappened(batch[..i]) < |Occurrences(batch)|
        ensures Occurrences(batch)[CountHappened(batch[..i])] == OccurrenceMessage(batch[i].occurrence)
      {
        if i < n {
          assert batch[..n][i] == batch[i] && batch[..n][..i] == batch[..i];
        }
      }
    }
  }

  /** The topics among `announced`, in their order, each once. */
  function Ordered(announced: set<Topic>, from: nat): seq<Topic>
    requires from <= |TOPICS|
    decreases |TOPICS| - from
  {
    if from == |TOPICS| then []
    else (if TOPICS[from] in announced then [TOPICS[from]] else []) + Ordered(announced, from + 1)
  }

  lemma OrderedFirst(announced: set<Topic>, from: nat)
    requires from < |TOPICS|
    ensures Ordered(announced, from)
         == (if TOPICS[from] in announced then [TOPICS[from]] else []) + Ordered(announced, from + 1)
  {
  }

  lemma RankOf(from: nat)
    requires from < |TOPICS|
    ensures Rank(TOPICS[from]) == from
  {
  }

  lemma {:induction false} OrderedHasAll(announced: set<Topic>, from: nat, t: Topic)
    requires from <= |TOPICS|
    ensures t in Ordered(announced, from) <==> t in announced && from <= Rank(t)
    decreases |TOPICS| - from
  {
    if from < |TOPICS| {
      OrderedFirst(announced, from);
      RankOf(from);
      assert TOPICS[Rank(t)] == t;
      hide Ordered, Rank;
      OrderedHasAll(announced, from + 1, t);
      if Rank(t) == from {
        assert t == TOPICS[from];
      }
    }
  }

  lemma {:induction false} OrderedOne(t: Topic, from: nat)
    requires from <= |TOPICS|
    ensures Ordered({t}, from) == if from <= Rank(t) then [t] else []
    decreases |TOPICS| - from
  {
    if from < |TOPICS| {
      OrderedFirst({t}, from);
      RankOf(from);
      assert TOPICS[Rank(t)] == t;
      hide Ordered, Rank;
      OrderedOne(t, from + 1);
      if Rank(t) == from {
        assert t == TOPICS[from];
      }
    }
  }

  /** No topic is sent twice, and earlier ones are sent first. */
  lemma {:induction false} OrderedByRank(announced: set<Topic>, from: nat, i: nat, j: nat)
    requires from <= |TOPICS| && i < j < |Ordered(announced, from)|
    ensures from <= Rank(Ordered(announced, from)[i]) < Rank(Ordered(announced, from)[j])
    decreases |TOPICS| - from
  {
    if from < |TOPICS| {
      OrderedFirst(announced, from);
      RankOf(from);
      var rest := Ordered(announced, from + 1);
      hide Ordered, Rank;
      if TOPICS[from] !in announced {
        OrderedByRank(announced, from + 1, i, j);
      } else if i > 0 {
        OrderedByRank(announced, from + 1, i - 1, j - 1);
      } else {
        assert rest[j - 1] in rest;
        OrderedHasAll(announced, from + 1, rest[j - 1]);
      }
    }
  }

  function StateMessages<O>(topics: seq<Topic>, read: Topic -> Version): seq<Message<O>> {
    seq(|topics|, i requires 0 <= i < |topics| => StateMessage(read(topics[i])))
  }

  function TopicsOf<O(==)>(batch: seq<Signal<O>>): set<Topic> {
    set s | s in batch && s.State? :: s.topic
  }

  /** Where each part of a batch's messages is: occurrences first, then a state message per topic, then the position. */
  ghost predicate InPlace<O(!new)>(batch: seq<Signal<O>>, read: Topic -> Version, position: Option<int>,
                                   messages: seq<Message<O>>, sent: seq<Topic>) {
    var n := CountHappened(batch);
    && n + |sent| <= |messages|
    && (forall i :: 0 <= i < |batch| && batch[i].Happened? ==>
          && CountHappened(batch[..i]) < n
          && messages[CountHappened(batch[..i])] == OccurrenceMessage(batch[i].occurrence))
    && (forall j :: 0 <= j < |sent| ==> messages[n + j] == StateMessage(read(sent[j])))
    && (forall k :: 0 <= k < |messages| ==> (messages[k].OccurrenceMessage? <==> k < n))
    && messages[n + |sent|..]
       == if Signal<O>.Position in batch && position.Some? then [PositionMessage(position.value)] else []
  }

  lemma PutInPlace<O(!new)>(batch: seq<Signal<O>>, read: Topic -> Version, position: Option<int>,
                            messages: seq<Message<O>>,
                            sent: seq<Topic>, last: seq<Message<O>>)
    requires last == if Signal<O>.Position in batch && position.Some? then [PositionMessage(position.value)] else []
    requires messages == Occurrences(batch) + StateMessages(sent, read) + last
    ensures InPlace(batch, read, position, messages, sent)
  {
    hide Occurrences, CountHappened;
    OccurrencesInOrder(batch);
    var n := CountHappened(batch);
    forall i | 0 <= i < |batch| && batch[i].Happened?
      ensures CountHappened(batch[..i]) < n
      ensures messages[CountHappened(batch[..i])] == OccurrenceMessage(batch[i].occurrence)
    {
      assert messages[CountHappened(batch[..i])] == Occurrences(batch)[CountHappened(batch[..i])];
    }
    forall k | 0 <= k < |messages| ensures messages[k].OccurrenceMessage? <==> k < n {
      if k < n {
        assert messages[k] == Occurrences(batch)[k];
      }
    }
  }

  lemma SentTopics<O>(batch: seq<Signal<O>>)
    ensures var sent := Ordered(TopicsOf(batch), 0);
            && (forall t :: t in sent <==> Signal<O>.State(t) in batch)
            && forall i, j :: 0 <= i < j < |sent| ==> Sooner(sent[i], sent[j])
  {
    var sent := Ordered(TopicsOf(batch), 0);
    forall t ensures t in sent <==> Signal<O>.State(t) in batch {
      OrderedHasAll(TopicsOf(batch), 0, t);
    }
    forall i, j | 0 <= i < j < |sent| ensures Sooner(sent[i], sent[j]) {
      OrderedByRank(TopicsOf(batch), 0, i, j);
    }
  }

  /** What goes out for a batch of signals: all occurrences in their order, one state message for every topic that
      was announced, however often, in the order of their declaration, and the position at the end if there is one. */
  method BatchMessages<O(==,!new)>(batch: seq<Signal<O>>, read: Topic -> Version, position: Option<int>)
    returns (messages: seq<Message<O>>, ghost sent: seq<Topic>)
    ensures InPlace(batch, read, position, messages, sent)
    ensures messages == Occurrences(batch) + StateMessages(sent, read)
                        + if Signal<O>.Position in batch && position.Some?
                          then [PositionMessage(position.value)] else []
    ensures forall t :: t in sent <==> Signal<O>.State(t) in batch
    ensures forall i, j :: 0 <= i < j < |sent| ==> Sooner(sent[i], sent[j])
  {
    hide InPlace;
    messages := [];
    var topics: set<Topic> := {};
    var positionChanged := false;
    for i := 0 to |batch|
      invariant messages == Occurrences(batch[..i])
      invariant topics == TopicsOf(batch[..i])
      invariant positionChanged <==> Signal<O>.Position in batch[..i]
    {
      assert batch[..i + 1] == batch[..i] + [batch[i]];
      match batch[i]
      case State(topic) => topics := topics + {topic};
      case Position => positionChanged := true;
      case Happened(occurrence) => messages := messages + [OccurrenceMessage(occurrence)];
    }
    assert batch[..|batch|] == batch;
    sent := Ordered(topics, 0);
    SentTopics(batch);
    ghost var last: seq<Message<O>> := if positionChanged
        && position.Some? then [PositionMessage(position.value)] else [];
    messages := messages + StateMessages(Ordered(topics, 0), read);
    if positionChanged && position.Some? {
      messages := messages + [PositionMessage(position.value)];
    }
    PutInPlace(batch, read, position, messages, sent, last);
  }
}
