/** How the queue plays: what the next entry is known to be, and how passes over the queue follow one another. */
module QueuePasses {
  import opened Arithmetic
  import opened Entries
  import opened Options
  import opened PlaybackQueue

  /** What plays after the current entry by itself, or none where that is still open. */
  function PeekNatural(s: State): Option<Entry> {
    if s.arranged == [] then None
    else if s.repeat == One then s.Current()
    else if s.current + 1 < |s.arranged| && s.current + 1 < |s.PlayOrder()| then Some(s.PlayOrder()[s.current + 1])
    else if s.repeat == All && s.shuffled.None? then Some(s.arranged[0])
    else None
  }

  /** An entry that is peeked at is the one that comes next, whatever the generator chooses. */
  lemma PeekedComesNext(s: State, t: State)
    requires Valid(s) && Moves(s, Natural, t) && PeekNatural(s).Some?
    ensures t.Current() == PeekNatural(s)
  {
    hide Distinct;
    PlaysTheSame(s);
  }

  /** None is peeked at only when there is nothing to move to, or before a shuffled queue wraps. */
  lemma NothingPeeked(s: State)
    requires Valid(s)
    ensures PeekNatural(s) == None <==>
            || s.arranged == []
            || (s.repeat == One && s.current == |s.arranged|)
            || (s.repeat == Off && s.current + 1 >= |s.arranged|)
            || (s.repeat == All && s.shuffled.Some? && s.current + 1 >= |s.arranged|)
  {
    hide Distinct;
    PlaysTheSame(s);
  }

  /** Whether every choice of the generator leads to the same entry. */
  ghost predicate Decided(s: State, next: Entry) {
    forall t :: Moves(s, Natural, t) ==> t.Current() == Some(next)
  }

  lemma WrapTo(s: State, first: nat) returns (t: State)
    requires Valid(s) && s.shuffled.Some? && s.arranged != [] && first < |s.PlayOrder()| && first != s.current
    requires s.repeat == All && s.current + 1 >= |s.arranged|
    ensures Moves(s, Natural, t) && t.Current() == Some(s.PlayOrder()[first])
  {
    PlaysTheSame(s);
    var order := Swapped(s.PlayOrder(), 0, first);
    t := s.(shuffled := Some(order), current := 0);
    if s.current < |s.PlayOrder()| {
      DistinctAt(s.PlayOrder(), s.current, first);
    }
    if |s.arranged| == 1 {
      assert order == s.PlayOrder();
    }
  }

  /** Before a shuffled queue wraps nothing is peeked at, yet the next entry is decided exactly when there is only
      one entry, or two and one of them is current. */
  lemma DecidedBeforeAWrap(s: State)
    requires Valid(s) && s.arranged != [] && s.repeat == All && s.shuffled.Some? && s.current + 1 >= |s.arranged|
    ensures PeekNatural(s) == None
    ensures (exists next :: Decided(s, next)) <==> |s.arranged| == 1 || (|s.arranged| == 2 && s.current == 1)
  {
    hide Distinct;
    PlaysTheSame(s);
    var order := s.PlayOrder();
    if |order| == 1 {
      assert Decided(s, order[0]);
    } else if |order| == 2 && s.current == 1 {
      forall t | Moves(s, Natural, t) ensures t.Current() == Some(order[0]) {
        OtherOfTwo(order, t.PlayOrder());
      }
      assert Decided(s, order[0]);
    } else {
      var a := WrapTo(s, 0);
      var b := WrapTo(s, 1);
      DistinctAt(order, 0, 1);
      assert a.Current() != b.Current();
      forall next ensures !Decided(s, next) {
        assert !(a.Current() == Some(next) && b.Current() == Some(next));
      }
    }
  }

  lemma OtherOfTwo(order: seq<Entry>, other: seq<Entry>)
    requires |order| == |other| == 2 && multiset(order) == multiset(other) && other[0].id != order[1].id
    ensures other[0] == order[0]
  {
    assert other[0] in multiset(other);
    assert other[0] in multiset(order);
  }

  // ---- Passes over a queue that repeats ----

  /** A run of natural finishes. */
  ghost predicate NaturalRun(run: seq<State>) {
    && run != [] && Valid(run[0]) && run[0].arranged != [] && run[0].repeat == All
    && (forall i :: 0 <= i < |run| - 1 ==> Moves(run[i], Natural, run[i + 1]))
  }

  /** Throughout a run the same entries are queued, in the same arranged order. */
  lemma {:induction false} RunKeepsTheQueue(run: seq<State>, i: nat)
    requires NaturalRun(run) && i < |run|
    ensures Valid(run[i]) && run[i].arranged == run[0].arranged && run[i].repeat == All
    ensures run[i].shuffled.Some? == run[0].shuffled.Some?
  {
    hide Distinct, Valid;
    if i > 0 {
      RunKeepsTheQueue(run, i - 1);
      MovesAreValid(run[i - 1], Natural);
      assert Moves(run[i - 1], Natural, run[i]);
    }
  }

  /** From the first entry on, the position counts through the queue, pass after pass. */
  lemma {:induction false} PositionsCount(run: seq<State>, i: nat)
    requires NaturalRun(run) && run[0].current == 0 && i < |run|
    ensures run[i].current == i % |run[0].arranged|
  {
    hide Distinct, Valid;
    if i > 0 {
      PositionsCount(run, i - 1);
      RunKeepsTheQueue(run, i - 1);
      assert Moves(run[i - 1], Natural, run[i]);
      Counting(i - 1, |run[0].arranged|);
    }
  }

  lemma Counting(i: nat, n: nat)
    requires n >= 1
    ensures (i + 1) % n == if i % n + 1 < n then i % n + 1 else 0
  {
    var q, r := i / n, i % n;
    if r + 1 < n {
      assert i + 1 == q * n + (r + 1);
      QuotientIs(i + 1, n, q, r + 1);
    } else {
      assert i + 1 == (q + 1) * n + 0;
      QuotientIs(i + 1, n, q + 1, 0);
    }
  }

  /** Within a pass the play order stays. */
  lemma {:induction false} PassKeepsItsOrder(run: seq<State>, start: nat, k: nat)
    requires NaturalRun(run) && run[0].current == 0 && start % |run[0].arranged| == 0
    requires k < |run[0].arranged| && start + k < |run|
    ensures run[start + k].PlayOrder() == run[start].PlayOrder() && run[start + k].current == k
  {
    hide Distinct, Valid;
    PositionsCount(run, start + k);
    QuotientIs(start + k, |run[0].arranged|, start / |run[0].arranged|, k);
    if k > 0 {
      PassKeepsItsOrder(run, start, k - 1);
      RunKeepsTheQueue(run, start + k - 1);
      assert Moves(run[start + k - 1], Natural, run[start + k]);
    }
  }

  /** Every pass plays each entry exactly once: its order is a permutation of the queue, and the k-th entry played
      is the k-th of it. */
  lemma PassPlaysEachOnce(run: seq<State>, start: nat, k: nat)
    requires NaturalRun(run) && run[0].current == 0 && start % |run[0].arranged| == 0
    requires k < |run[0].arranged| && start + k < |run|
    ensures multiset(run[start].PlayOrder()) == multiset(run[0].arranged)
      && |run[start].PlayOrder()| == |run[0].arranged|
    ensures run[start + k].Current() == Some(run[start].PlayOrder()[k])
  {
    hide Distinct, Valid;
    RunKeepsTheQueue(run, start);
    PlaysTheSame(run[start]);
    PassKeepsItsOrder(run, start, k);
  }

  /** With more than one entry, none plays twice in a row, across wraps as well. */
  lemma NoneTwiceInARow(run: seq<State>, i: nat)
    requires NaturalRun(run) && run[0].current == 0 && i + 1 < |run| && |run[0].arranged| > 1
    ensures run[i].Current().Some? && run[i + 1].Current().Some? && run[i].Current() != run[i + 1].Current()
  {
    hide Distinct, Valid;
    RunKeepsTheQueue(run, i);
    PlaysTheSame(run[i]);
    PositionsCount(run, i);
    RemainderBound(i, |run[0].arranged|);
    assert Moves(run[i], Natural, run[i + 1]);
    if run[i].current + 1 < |run[i].arranged| {
      DistinctAt(run[i].PlayOrder(), run[i].current, run[i].current + 1);
    } else if run[i].shuffled.None? {
      DistinctAt(run[i].PlayOrder(), run[i].current, 0);
    }
  }

  lemma RemainderBound(i: nat, n: nat)
    requires n >= 1
    ensures i % n < n
  {
  }

  /** Having shuffled leaves no trace: turned on and off again, the queue is what it was. */
  method ShuffleOnAndOff(queue: Queue)
    requires Valid(queue.Now()) && !queue.shuffle && (queue.arranged != [] ==> queue.current < |queue.arranged|)
    modifies queue
    ensures queue.Now() == old(queue.Now())
  {
    ghost var before := queue.Now();
    PlaysTheSame(before);
    var on := queue.SetShuffle(true);
    PlaysTheSame(queue.Now());
    var off := queue.SetShuffle(false);
    PlaysTheSame(queue.Now());
    hide Distinct;
    if before.arranged != [] {
      DistinctAt(queue.arranged, queue.current, before.current);
    }
  }
}
