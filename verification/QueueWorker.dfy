/** What the playback worker asks of the queue when nothing may be current, and how a queue comes to have entries
    and none of them current. */
module QueueWorker {
  import opened Entries
  import opened Options
  import opened PlaybackQueue

  /** The worker's enqueue command: with nothing current the tracks become a new queue. */
  method EnqueueCommand(queue: Queue, tracks: seq<TrackId>, next: bool) returns (outcome: Outcome<()>)
    requires Valid(queue.Now())
    modifies queue
    ensures !outcome.Panicked? && Valid(queue.Now())
    ensures old(queue.Now().Current()).Some? ==>
      outcome == Ok(()) && queue.Now().Current() == old(queue.Now().Current())
    ensures old(queue.Now().Current()) == None && tracks != [] ==>
      && outcome == Ok(()) && queue.arranged == Numbered(tracks, old(queue.nextItemId))
      && queue.Now().Current() == Some(queue.arranged[0])
    ensures old(queue.Now().Current()) == None && tracks == [] ==>
      outcome == InvalidStart && queue.Now() == old(queue.Now())
  {
    PlaysTheSame(queue.Now());
    hide Distinct, AddedTo, Numbered;
    if queue.Now().Current() == None {
      outcome := queue.Replace(tracks, 0);
    } else {
      outcome := queue.Enqueue(tracks, next);
    }
  }

  method SecondOfTwo(a: TrackId, b: TrackId) returns (queue: Queue)
    ensures fresh(queue) && Valid(queue.Now()) && !queue.shuffle
    ensures queue.arranged == [Entry(1, a), Entry(2, b)] && queue.shuffled == None && queue.current == 1
  {
    queue := new Queue(Off, false);
    var replaced := queue.Replace([a, b], 1);
    assert queue.arranged == [Entry(1, a), Entry(2, b)];
    DistinctAt(queue.arranged, queue.current, 1);
  }

  /** Plays the last of two entries and drops it, as the worker does with a track that is missing from the library:
      one entry is left and none is current. */
  method LastEntryGoes(a: TrackId, b: TrackId) returns (queue: Queue)
    ensures fresh(queue) && Valid(queue.Now()) && !queue.shuffle && queue.arranged == [Entry(1, a)]
    ensures queue.Now().Current() == None && queue.current == |queue.arranged| == 1
  {
    hide Valid, Distinct, Without;
    queue := SecondOfTwo(a, b);
    WithoutSecond(Entry(1, a), Entry(2, b));
    ghost var order := queue.Now().PlayOrder();
    assert order[..1] == [Entry(1, a)] && order[1..] == [Entry(2, b)];
    var changed := queue.RemoveEntries({2});
    PlaysTheSame(queue.Now());
    assert queue.Now().PlayOrder() == [Entry(1, a)];
  }

  lemma WithoutSecond(a: Entry, b: Entry)
    requires a.id != b.id
    ensures Without([a, b], {b.id}) == [a] && Without([a], {b.id}) == [a] && Without([b], {b.id}) == []
  {
    assert [a, b][1..] == [b] && [a][1..] == [] && [b][1..] == [];
    assert Without([], {b.id}) == [];
  }

  /** In that state adding behind the current entry panics, which only the worker's guard prevents. */
  method EnqueueBehindNothing(a: TrackId, b: TrackId, c: TrackId) returns (outcome: Outcome<()>)
    ensures outcome == Panicked
  {
    var queue := LastEntryGoes(a, b);
    outcome := queue.Enqueue([c], true);
  }

  /** In that state turning shuffle on makes an entry current that was not. */
  method ShuffleMakesCurrent(a: TrackId, b: TrackId) returns (current: Option<Entry>)
    ensures current == Some(Entry(1, a))
  {
    var queue := LastEntryGoes(a, b);
    var changed := queue.SetShuffle(true);
    current := queue.Now().Current();
  }
}
