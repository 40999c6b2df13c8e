/** The playback queue: the arranged order, while shuffle is on a second order the entries play in, and
    where in the one that plays the current entry is. */
module PlaybackQueue {
  import opened Entries
  import opened Options

  datatype Repeat = Off | All | One

  datatype Reason = Natural | UserNext | UserPrevious

  /** How a call ends; `Panicked` stands for an index behind the end of a list. */
  datatype Outcome<T> = Ok(value: T) | InvalidStart | ItemNotUpcoming | Panicked

  /** A queue at one moment. */
  datatype State = State(arranged: seq<Entry>, shuffled: Option<seq<Entry>>, current: nat,
                         repeat: Repeat, shuffle: bool, nextItemId: ItemId) {
    function PlayOrder(): seq<Entry> {
      if shuffled.Some? then shuffled.value else arranged
    }

    function Current(): Option<Entry> {
      if current < |PlayOrder()| then Some(PlayOrder()[current]) else None
    }

    function Upcoming(): seq<Entry> {
      if current < |PlayOrder()| then PlayOrder()[current + 1..] else []
    }
  }

  /** What every operation keeps, whatever the generator chooses. */
  ghost predicate Valid(s: State) {
    && Distinct(multiset(s.arranged))
    && (forall e :: e in s.arranged ==> e.id < s.nextItemId)
    && (s.shuffled.Some? ==> multiset(s.shuffled.value) == multiset(s.arranged))
    && s.current <= |s.arranged|
    && (s.arranged != [] ==> (s.shuffled.Some? <==> s.shuffle))
  }

  /** The same entries play, in some order. */
  lemma PlaysTheSame(s: State)
    requires Valid(s)
    ensures multiset(s.PlayOrder()) == multiset(s.arranged) && |s.PlayOrder()| == |s.arranged|
    ensures Distinct(multiset(s.PlayOrder())) && Ids(s.PlayOrder()) == Ids(s.arranged)
    ensures forall e :: e in s.PlayOrder() <==> e in s.arranged
  {
    hide Distinct;
    if s.shuffled.Some? {
      assert |multiset(s.shuffled.value)| == |s.shuffled.value|;
      assert |multiset(s.arranged)| == |s.arranged|;
      forall e ensures e in s.PlayOrder() <==> e in s.arranged {
        assert e in s.PlayOrder() <==> e in multiset(s.PlayOrder());
        assert e in s.arranged <==> e in multiset(s.arranged);
      }
    }
  }

  /** Entries for `tracks`, numbered from `first`. */
  function Numbered(tracks: seq<TrackId>, first: ItemId): (entries: seq<Entry>)
    ensures |entries| == |tracks|
    ensures forall i :: 0 <= i < |tracks| ==> entries[i] == Entry(first + i, tracks[i])
  {
    if tracks == [] then [] else [Entry(first, tracks[0])] + Numbered(tracks[1..], first + 1)
  }

  lemma {:induction false} NumberedAreDistinct(tracks: seq<TrackId>, first: ItemId)
    ensures Distinct(multiset(Numbered(tracks, first)))
    ensures forall e :: e in Numbered(tracks, first) ==> first <= e.id < first + |tracks|
  {
    var entries := Numbered(tracks, first);
    if tracks != [] {
      NumberedAreDistinct(tracks[1..], first + 1);
      assert entries == [entries[0]] + Numbered(tracks[1..], first + 1);
      NewAreDistinct(multiset([entries[0]]), multiset(Numbered(tracks[1..], first + 1)));
    }
  }

  /** Distinct entries of other ids stay distinct together. */
  lemma NewAreDistinct(a: multiset<Entry>, b: multiset<Entry>)
    requires Distinct(a) && Distinct(b) && forall e, f :: e in a && f in b ==> e.id != f.id
    ensures Distinct(a + b)
  {
    forall e ensures (a + b)[e] <= 1 {
      assert (a + b)[e] == a[e] + b[e];
      assert !(e in a && e in b);
    }
    forall e, f | e in a + b && f in a + b && e.id == f.id ensures e == f {
    }
  }

  lemma LaterIdsAreValid(s: State, repeat: Repeat, later: ItemId)
    requires Valid(s)
    ensures Valid(s.(repeat := repeat, nextItemId := if later < s.nextItemId then s.nextItemId else later))
  {
    hide Distinct;
  }

  /** A queue of fewer entries, in any order. */
  lemma FewerAreValid(s: State, t: State)
    requires Valid(s) && multiset(t.arranged) <= multiset(s.arranged) && t.current <= |t.arranged|
    requires t.nextItemId == s.nextItemId && t.shuffle == s.shuffle && t.shuffled.Some? == s.shuffled.Some?
    requires t.shuffled.Some? ==> multiset(t.shuffled.value) == multiset(t.arranged)
    ensures Valid(t)
  {
    hide Distinct;
    FewerAreDistinct(multiset(t.arranged), multiset(s.arranged));
    forall e | e in t.arranged ensures e in s.arranged {
      assert e in multiset(t.arranged) && e in multiset(s.arranged);
    }
    if t.arranged != [] {
      assert t.arranged[0] in multiset(t.arranged) && t.arranged[0] in multiset(s.arranged);
    }
  }

  /** A queue with new entries, in any place. */
  lemma MoreAreValid(s: State, t: State, tracks: seq<TrackId>)
    requires Valid(s) && s.arranged != [] && t.nextItemId == s.nextItemId + |tracks|
    requires multiset(t.arranged) == multiset(s.arranged) + multiset(Numbered(tracks, s.nextItemId))
    requires t.current == s.current && t.shuffle == s.shuffle && t.shuffled.Some? == s.shuffled.Some?
    requires t.shuffled.Some? ==> multiset(t.shuffled.value) == multiset(t.arranged)
    ensures Valid(t)
  {
    hide Distinct, Numbered;
    var entries := Numbered(tracks, s.nextItemId);
    NewIdsAreNew(s, tracks);
    forall e | e in t.arranged ensures e.id < t.nextItemId {
      assert e in multiset(t.arranged);
    }
    assert |multiset(t.arranged)| == |multiset(s.arranged)| + |multiset(entries)|;
  }

  lemma NewIdsAreNew(s: State, tracks: seq<TrackId>)
    requires Valid(s)
    ensures var entries := Numbered(tracks, s.nextItemId);
            && Distinct(multiset(s.arranged) + multiset(entries))
            && (forall e :: e in multiset(s.arranged) + multiset(entries) ==> e.id < s.nextItemId + |tracks|)
  {
    hide Distinct, Numbered;
    var entries := Numbered(tracks, s.nextItemId);
    NumberedAreDistinct(tracks, s.nextItemId);
    assert forall e :: e in multiset(s.arranged) ==> e in s.arranged;
    assert forall e :: e in multiset(entries) ==> e in entries;
    NewAreDistinct(multiset(s.arranged), multiset(entries));
  }

  /** Ids given out at a counter, and again at one that has passed them: no id is given twice. */
  lemma LaterIdsAreNew(tracks: seq<TrackId>, first: ItemId, later: seq<TrackId>, second: ItemId)
    requires first + |tracks| <= second
    ensures Ids(Numbered(tracks, first)) !! Ids(Numbered(later, second))
  {
    NumberedAreDistinct(tracks, first);
    NumberedAreDistinct(later, second);
  }

  lemma NewQueueIsValid(s: State, tracks: seq<TrackId>, first: ItemId)
    requires s.arranged == Numbered(tracks, first) && s.nextItemId == first + |tracks| && s.current <= |tracks|
    requires s.shuffled.Some? <==> s.shuffle
    requires s.shuffled.Some? ==> multiset(s.shuffled.value) == multiset(s.arranged)
    ensures Valid(s)
  {
    hide Distinct, Numbered;
    NumberedAreDistinct(tracks, first);
  }

  /** How many of the entries have one of `ids`. */
  function Among(s: seq<Entry>, ids: set<ItemId>): (n: nat)
    ensures n == |s| - |Without(s, ids)|
  {
    if s == [] then 0 else (if s[0].id in ids then 1 else 0) + Among(s[1..], ids)
  }

  class Queue {
    var arranged: seq<Entry>
    var shuffled: Option<seq<Entry>>
    var current: nat
    var repeat: Repeat
    var shuffle: bool
    var nextItemId: ItemId

    function Now(): State
      reads this
    {
      State(arranged, shuffled, current, repeat, shuffle, nextItemId)
    }

    constructor (repeat: Repeat, shuffle: bool)
      ensures Now() == State([], None, 0, repeat, shuffle, 1) && Valid(Now())
    {
      this.repeat, this.shuffle := repeat, shuffle;
      arranged, shuffled, current, nextItemId := [], None, 0, 1;
    }

    /** Entries with ids from the counter on. The counter never falls, so no later entry gets one of them again
        (`LaterIdsAreNew`). */
    method NewEntries(tracks: seq<TrackId>) returns (entries: seq<Entry>)
      modifies this`nextItemId
      ensures entries == Numbered(tracks, old(nextItemId)) && nextItemId == old(nextItemId) + |tracks|
    {
      entries := [];
      for i := 0 to |tracks|
        invariant entries == Numbered(tracks[..i], old(nextItemId)) && nextItemId == old(nextItemId) + i
      {
        assert tracks[..i + 1] == tracks[..i] + [tracks[i]];
        NumberedOneMore(tracks[..i], tracks[i], old(nextItemId));
        entries := entries + [Entry(nextItemId, tracks[i])];
        nextItemId := nextItemId + 1;
      }
      assert tracks[..|tracks|] == tracks;
    }

    /** All entries are new, in the order given, and the one at `start` is current. Nothing changes on error. */
    method Replace(tracks: seq<TrackId>, start: nat) returns (outcome: Outcome<()>)
      requires Valid(Now())
      modifies this`arranged, this`shuffled, this`current, this`nextItemId
      ensures Valid(Now())
      ensures start >= |tracks| ==> outcome == InvalidStart && Now() == old(Now())
      ensures start < |tracks| ==>
        && outcome == Ok(()) && arranged == Numbered(tracks, old(nextItemId))
            && nextItemId == old(nextItemId) + |tracks|
        && Now().Current() == Some(arranged[start])
        && (shuffle ==> current == 0)
    {
      if start >= |tracks| {
        return InvalidStart;
      }
      hide Valid, Numbered;
      var entries := NewEntries(tracks);
      StartWith(entries, start);
      NewQueueIsValid(Now(), tracks, old(nextItemId));
      outcome := Ok(());
    }

    method StartWith(entries: seq<Entry>, start: nat)
      requires start < |entries|
      modifies this`arranged, this`shuffled, this`current
      ensures arranged == entries && (shuffled.Some? <==> shuffle) && current < |entries|
      ensures shuffled.Some? ==> multiset(shuffled.value) == multiset(arranged) && current == 0
      ensures Now().Current() == Some(entries[start])
    {
      arranged, shuffled, current := entries, None, start;
      if shuffle {
        ShuffleAroundCurrent();
      }
    }

    /** A random play order that starts with the current entry, or with the last if none is current. */
    method ShuffleAroundCurrent()
      requires arranged != [] && current <= |arranged|
      modifies this`shuffled, this`current
      ensures current == 0 && shuffled.Some? && multiset(shuffled.value) == multiset(arranged)
      ensures |shuffled.value| == |arranged|
      ensures shuffled.value[0] == arranged[if old(current) < |arranged| then old(current) else |arranged| - 1]
    {
      var index := if current < |arranged| then current else |arranged| - 1;
      var first := arranged[index];
      OneOut(arranged, index);
      var rest := Shuffled(arranged[..index] + arranged[index + 1..]);
      shuffled := Some([first] + rest);
      current := 0;
    }

    /** The arranged order stays, and so does the current entry: it is first in the shuffled order, and where it
        was arranged once shuffle is off. */
    method SetShuffle(enabled: bool) returns (changed: bool)
      requires Valid(Now())
      modifies this`shuffle, this`shuffled, this`current
      ensures Valid(Now()) && shuffle == enabled && changed == (old(shuffle) != enabled)
      ensures !changed ==> Now() == old(Now())
      ensures old(Now().Current()).Some? ==> Now().Current() == old(Now().Current())
      ensures changed && old(current) == |arranged| > 0 ==>
        Now().Current() == Some(if enabled then arranged[|arranged| - 1] else arranged[0])
      ensures changed && enabled && arranged != [] ==> current == 0
      ensures arranged == [] ==> shuffled == old(shuffled) && current == old(current)
    {
      if shuffle == enabled {
        return false;
      }
      PlaysTheSame(Now());
      shuffle := enabled;
      if arranged == [] {
        return true;
      }
      if enabled {
        ShuffleAroundCurrent();
      } else {
        var order := shuffled.value;
        shuffled := None;
        if current < |order| {
          assert order[current] in order;
          var position := Position(arranged, order[current].id);
          assert order[current].id in Ids(arranged);
          current := position.value;
          SameId(arranged, arranged[current], order[old(current)]);
        } else {
          current := 0;
        }
      }
      changed := true;
    }

    /** The orders and the place of `previous`, under the settings of now; ids go on from the larger counter. */
    method Restore(previous: Queue)
      requires Valid(Now()) && Valid(previous.Now()) && previous != this
      modifies this`arranged, this`shuffled, this`current, this`shuffle, this`nextItemId
      ensures Valid(Now()) && shuffle == old(shuffle) && arranged == previous.arranged
      ensures old(nextItemId) <= nextItemId && previous.nextItemId <= nextItemId
      ensures shuffle == previous.shuffle ==> shuffled == previous.shuffled && current == previous.current
      ensures previous.Now().Current().Some? ==> Now().Current() == previous.Now().Current()
    {
      hide Valid, Distinct;
      var wanted := shuffle;
      LaterIdsAreValid(previous.Now(), repeat, nextItemId);
      arranged, shuffled, current, shuffle := previous.arranged, previous.shuffled, previous.current, previous.shuffle;
      nextItemId := if nextItemId < previous.nextItemId then previous.nextItemId else nextItemId;
      if shuffle != wanted {
        var changed := SetShuffle(wanted);
      }
    }

    method Clear()
      requires Valid(Now())
      modifies this`arranged, this`shuffled, this`current
      ensures Valid(Now()) && arranged == [] && shuffled == None && current == 0
    {
      arranged, shuffled, current := [], None, 0;
    }

    /** Drops everything after the current entry, from both orders. */
    method ClearUpcoming() returns (changed: bool)
      requires Valid(Now())
      modifies this`arranged, this`shuffled
      ensures Valid(Now()) && changed == (old(Now().Upcoming()) != [])
      ensures Now().Upcoming() == [] && Now().Current() == old(Now().Current())
      ensures Now().PlayOrder() == Without(old(Now().PlayOrder()), Ids(old(Now().Upcoming())))
      ensures arranged == Without(old(arranged), Ids(old(Now().Upcoming())))
    {
      hide Valid, Distinct, Without;
      var order, upcoming := Now().PlayOrder(), Now().Upcoming();
      PlaysTheSame(Now());
      UpcomingDropped(Now());
      if upcoming == [] {
        return false;
      }
      var keep := current + 1;
      if shuffled.Some? {
        shuffled := Some(order[..keep]);
        arranged := Without(arranged, Ids(upcoming));
      } else {
        arranged := arranged[..keep];
      }
      changed := true;
    }

    /** Both orders lose exactly these ids. The current entry stays current if it stays; otherwise the first
        survivor behind it is. */
    method RemoveEntries(ids: set<ItemId>) returns (changed: bool)
      requires Valid(Now())
      modifies this`arranged, this`shuffled, this`current
      ensures Valid(Now()) && changed == !(old(Ids(Now().PlayOrder())) !! ids)
      ensures arranged == Without(old(arranged), ids)
      ensures Now().PlayOrder() == Without(old(Now().PlayOrder()), ids)
      ensures current <= |Now().PlayOrder()|
      ensures Now().PlayOrder()[..current] == Without(old(Now().PlayOrder()[..current]), ids)
      ensures Now().PlayOrder()[current..] == Without(old(Now().PlayOrder()[current..]), ids)
    {
      hide Valid, Distinct, Without, Among;
      var order := Now().PlayOrder();
      PlaysTheSame(Now());
      CurrentInside(Now());
      EntriesDropped(Now(), ids);
      if Ids(order) !! ids {
        NothingDropped(Now(), ids);
        return false;
      }
      var before := Among(order[..current], ids);
      arranged := Without(arranged, ids);
      if shuffled.Some? {
        shuffled := Some(Without(shuffled.value, ids));
      }
      current := current - before;
      changed := true;
    }

    function UpcomingIndex(id: ItemId): (index: Option<nat>)
      reads this
    {
      var position := Position(Now().PlayOrder(), id);
      if position.Some? && position.value > current then position else None
    }

    /** Removes one upcoming entry from both orders. */
    method RemoveUpcoming(id: ItemId) returns (outcome: Outcome<()>)
      requires Valid(Now())
      modifies this`arranged, this`shuffled
      ensures Valid(Now()) && outcome == if old(id in Ids(Now().Upcoming())) then Ok(()) else ItemNotUpcoming
      ensures outcome != Ok(()) ==> Now() == old(Now())
      ensures outcome == Ok(()) ==>
        && arranged == Without(old(arranged), {id})
        && Now().PlayOrder() == Without(old(Now().PlayOrder()), {id})
        && |Now().PlayOrder()| + 1 == |old(Now().PlayOrder())| && old(current) < |old(Now().PlayOrder())|
        && Now().PlayOrder()[..current + 1] == old(Now().PlayOrder())[..current + 1]
    {
      hide Valid, Without, Ids, Position;
      var order := Now().PlayOrder();
      UpcomingHasIndex(Now(), id);
      var index := UpcomingIndex(id);
      if index == None {
        return ItemNotUpcoming;
      }
      OneDropped(Now(), index.value);
      var left := order[..index.value] + order[index.value + 1..];
      if shuffled.Some? {
        shuffled := Some(left);
        arranged := Without(arranged, {id});
      } else {
        arranged := left;
      }
      outcome := Ok(());
    }

    /** One upcoming entry changes its place among the upcoming ones; a place past them is their end. Arranged, it
        follows the entry it follows in play. */
    method MoveUpcoming(id: ItemId, to: nat) returns (outcome: Outcome<bool>)
      requires Valid(Now())
      modifies this`arranged, this`shuffled
      ensures Valid(Now()) && (outcome.ItemNotUpcoming? <==> old(id !in Ids(Now().Upcoming())))
      ensures outcome.ItemNotUpcoming? || outcome.Ok?
      ensures outcome != Ok(true) ==> Now() == old(Now())
      ensures outcome.Ok? ==> MovedTo(old(Now()), Now(), id, to)
      ensures outcome.Ok? ==> AmongUpcoming(old(Now().Upcoming()), Now().Upcoming(), id, to)
      ensures outcome.Ok? ==> outcome.value == (Now().PlayOrder() != old(Now().PlayOrder()))
      ensures outcome == Ok(true) ==> LandedBehind(old(Now()), Now(), id)
    {
      hide Valid, Distinct, Without, MovedOrder, Rearranged, MovedTo, LandedBehind, AmongUpcoming;
      var order := Now().PlayOrder();
      UpcomingHasIndex(Now(), id);
      var index := UpcomingIndex(id);
      if index == None {
        return ItemNotUpcoming;
      }
      var target := Target(Now(), to);
      if target == index.value {
        StaysThere(Now(), index.value, to);
        LandsAmongUpcoming(Now(), Now(), id, to);
        return Ok(false);
      }
      ghost var before := Now();
      EntryMoved(Now(), index.value, to);
      var moved := MovedOrder(order, index.value, target);
      if shuffled.Some? {
        shuffled := Some(moved);
        arranged := Rearranged(arranged, order[index.value], moved[target - 1].id);
      } else {
        arranged := moved;
      }
      LandsAmongUpcoming(before, Now(), id, to);
      outcome := Ok(true);
    }

    /** Makes any other entry current. */
    method JumpTo(id: ItemId) returns (outcome: Outcome<()>)
      requires Valid(Now())
      modifies this`current
      ensures Valid(Now())
      ensures var was := old(Now().Current());
              outcome ==
                if old(id in Ids(arranged)) && !(was.Some? && was.value.id == id) then Ok(()) else ItemNotUpcoming
      ensures outcome != Ok(()) ==> current == old(current)
      ensures outcome == Ok(()) ==> Now().Current().Some? && Now().Current().value.id == id
    {
      PlaysTheSame(Now());
      var order := Now().PlayOrder();
      var index := Position(order, id);
      if index == None {
        return ItemNotUpcoming;
      }
      if index.value == current {
        return ItemNotUpcoming;
      }
      if current < |order| {
        DistinctAt(order, index.value, current);
      }
      current := index.value;
      outcome := Ok(());
    }

    /** Adds entries right behind the current one, or at the end, in both orders. Without a current entry there is
        no place behind it, and the splice is out of bounds; a shuffled queue has then changed one order already. */
    method Enqueue(tracks: seq<TrackId>, next: bool) returns (outcome: Outcome<()>)
      requires Valid(Now())
      modifies this`arranged, this`shuffled, this`nextItemId
      ensures outcome.Panicked? <==> next && old(arranged) != [] && old(current) == |old(arranged)|
      ensures outcome.Panicked? ==>
        && shuffled == old(shuffled) && nextItemId == old(nextItemId) + |tracks|
        && arranged == if shuffled.Some? then old(arranged) + Numbered(tracks, old(nextItemId)) else old(arranged)
      ensures !outcome.Panicked? ==> Valid(Now())
      ensures old(arranged) == [] ==> outcome == InvalidStart && Now() == old(Now())
      ensures old(arranged) != [] && !outcome.Panicked? ==>
        && outcome == Ok(()) && nextItemId == old(nextItemId) + |tracks|
        && var entries := Numbered(tracks, old(nextItemId));
           && Now().PlayOrder() == AddedTo(old(Now().PlayOrder()), old(Now().Current()), next, entries)
           && arranged == AddedTo(old(arranged), old(Now().Current()), next, entries)
           && BlockAt(old(Now().PlayOrder()), Now().PlayOrder(), entries, if next then current + 1 else |old(arranged)|)
           && BlockBehind(old(arranged), arranged, entries, if next then old(Now().Current()) else None)
      ensures !outcome.Panicked? && (old(Now().Current()).Some? || tracks == [] || old(arranged) == []) ==>
        Now().Current() == old(Now().Current())
    {
      hide Valid, Distinct, Numbered, AddedTo, Inserted, BlockAt, BlockBehind;
      if arranged == [] {
        return InvalidStart;
      }
      CurrentInside(Now());
      var at := if next then current + 1 else |arranged|;
      if at > |arranged| {
        var unplaced := NewEntries(tracks);
        if shuffled.Some? {
          arranged := arranged + unplaced;
        }
        return Panicked;
      }
      EntriesAdded(Now(), tracks, next);
      AddedWhere(Now(), tracks, next);
      BlocksAdded(Now(), tracks, next);
      var entries := NewEntries(tracks);
      var currentEntry := Now().Current();
      if shuffled.Some? {
        var behind := if next && currentEntry.Some? then Position(arranged, currentEntry.value.id) else None;
        arranged := Inserted(arranged, if behind.Some? then behind.value + 1 else |arranged|, entries);
        shuffled := Some(Inserted(shuffled.value, at, entries));
      } else {
        arranged := Inserted(arranged, at, entries);
      }
      outcome := Ok(());
    }

    method SetRepeat(mode: Repeat) returns (changed: bool)
      requires Valid(Now())
      modifies this`repeat
      ensures Valid(Now()) && repeat == mode && changed == (old(repeat) != mode)
    {
      changed := repeat != mode;
      repeat := mode;
    }

    /** Where to go is for the reason, the place and the repeat mode to say. There is no entry where the queue does
        not wrap. */
    method Advance(reason: Reason) returns (entry: Option<Entry>)
      requires Valid(Now())
      modifies this`shuffled, this`current
      ensures Valid(Now()) && Moves(old(Now()), reason, Now())
      ensures entry == if arranged == [] || AtEnd(old(Now()), reason) then None else Now().Current()
      // Every way of going on, by itself.
      ensures arranged == [] ==> entry == None && Now() == old(Now())
      ensures arranged != [] && reason == Natural && repeat == One ==> Now() == old(Now()) && entry == Now().Current()
      ensures arranged != [] && reason == UserPrevious ==>
        if old(current) > 0 then current == old(current) - 1 && entry == Now().Current()
        else if repeat == All then current == |arranged| - 1 && entry == Now().Current()
        else current == 0 && entry == None
      ensures arranged != [] && (reason == UserNext || (reason == Natural && repeat != One)) ==>
        if old(current) + 1 < |arranged| then current == old(current) + 1 && entry == Now().Current()
        else if repeat == All then current == 0 && entry == Now().Current()
        else current == old(current) && entry == None
    {
      hide Valid, Distinct;
      CurrentInside(Now());
      PlaysTheSame(Now());
      MovesAreValid(Now(), reason);
      if arranged == [] {
        return None;
      }
      match reason {
      case Natural =>
        if repeat != One {
          if current + 1 < |arranged| {
            current := current + 1;
          } else if repeat == All {
            WrapToStart();
          } else {
            return None;
          }
        }
      case UserNext =>
        if current + 1 < |arranged| {
          current := current + 1;
        } else if repeat == All {
          WrapToStart();
        } else {
          return None;
        }
      case UserPrevious =>
        if current > 0 {
          current := current - 1;
        } else if repeat == All {
          current := |arranged| - 1;
        } else {
          return None;
        }
      }
      entry := Now().Current();
    }

    /** The first entry of a pass is current; in shuffle the pass is a new permutation, begun by another entry than
        the one before. */
    method WrapToStart()
      requires arranged != []
      requires shuffled.Some? ==> |shuffled.value| == |arranged| && Distinct(multiset(shuffled.value))
      modifies this`shuffled, this`current
      ensures Wraps(old(Now()), Now())
    {
      hide Distinct;
      if shuffled.Some? && |shuffled.value| > 1 {
        var lastPlayed := Now().Current();
        var order := Shuffled(shuffled.value);
        if lastPlayed.Some? && order[0].id == lastPlayed.value.id {
          var other :| 1 <= other < |order|;
          DistinctAt(order, 0, other);
          order := Swapped(order, 0, other);
        }
        shuffled := Some(order);
      }
      current := 0;
    }
  }

  /** The end of a queue that does not wrap. */
  predicate AtEnd(s: State, reason: Reason) {
    match reason
    case Natural => s.repeat == Off && s.current + 1 >= |s.arranged|
    case UserNext => s.repeat != All && s.current + 1 >= |s.arranged|
    case UserPrevious => s.repeat != All && s.current == 0
  }

  /** Another pass from the first entry: a play order of its own is drawn anew, one that does not begin with what
      has just played. */
  ghost predicate Wraps(s: State, t: State) {
    if s.shuffled.Some? && |s.shuffled.value| > 1 then
      && t.shuffled.Some? && multiset(t.shuffled.value) == multiset(s.shuffled.value)
      && |t.shuffled.value| == |s.shuffled.value|
      && t == s.(shuffled := t.shuffled, current := 0)
      && (s.Current().Some? ==> t.shuffled.value[0].id != s.Current().value.id)
    else t == s.(current := 0)
  }

  /** What `advance` may do, for any choice of the generator. */
  ghost predicate Moves(s: State, reason: Reason, t: State) {
    if s.arranged == [] || AtEnd(s, reason) || (reason.Natural? && s.repeat == One) then t == s
    else if reason.UserPrevious? then t == s.(current := if s.current > 0 then s.current - 1 else |s.arranged| - 1)
    else if s.current + 1 < |s.arranged| then t == s.(current := s.current + 1)
    else Wraps(s, t)
  }

  lemma MovesAreValid(s: State, reason: Reason)
    requires Valid(s)
    ensures forall t :: Moves(s, reason, t) ==> Valid(t)
  {
    hide Distinct;
    PlaysTheSame(s);
  }

  /** `entries` placed behind the current entry, or at the end. */
  function AddedTo(s: seq<Entry>, current: Option<Entry>, next: bool, entries: seq<Entry>): seq<Entry> {
    if next && current.Some? && current.value.id in Ids(s)
    then Inserted(s, Position(s, current.value.id).value + 1, entries)
    else s + entries
  }

  /** The entries are in one block at `at`, and what was there is around it as it was. */
  ghost predicate BlockAt(before: seq<Entry>, after: seq<Entry>, entries: seq<Entry>, at: nat) {
    && at <= |before| && |after| == |before| + |entries|
    && after[..at] == before[..at] && after[at..at + |entries|] == entries && after[at + |entries|..] == before[at..]
  }

  /** The block is right behind `entry`, or at the end. */
  ghost predicate BlockBehind(before: seq<Entry>, after: seq<Entry>, entries: seq<Entry>, entry: Option<Entry>) {
    exists at :: 0 <= at <= |before| && BlockAt(before, after, entries, at)
                 && if entry.Some? then at >= 1 && before[at - 1] == entry.value else at == |before|
  }

  lemma InsertedIsBlock(s: seq<Entry>, at: nat, entries: seq<Entry>)
    requires at <= |s|
    ensures BlockAt(s, Inserted(s, at, entries), entries, at)
  {
  }

  lemma BlocksAdded(s: State, tracks: seq<TrackId>, next: bool)
    requires Valid(s) && s.arranged != [] && (next ==> s.current < |s.arranged|)
    ensures var entries := Numbered(tracks, s.nextItemId);
            && BlockAt(s.PlayOrder(), AddedTo(s.PlayOrder(), s.Current(), next, entries), entries,
                       if next then s.current + 1 else |s.arranged|)
            && BlockBehind(s.arranged, AddedTo(s.arranged, s.Current(), next, entries), entries,
                           if next then s.Current() else None)
  {
    AddedWhere(s, tracks, next);
    PlaysTheSame(s);
    hide Valid, Distinct, Numbered, AddedTo, Inserted, BlockAt;
    var entries := Numbered(tracks, s.nextItemId);
    InsertedIsBlock(s.PlayOrder(), if next then s.current + 1 else |s.arranged|, entries);
    if next {
      var order, current := s.PlayOrder(), s.Current().value;
      var at := Position(s.arranged, current.id).value + 1;
      assert order[s.current] == current && current in order;
      SameId(s.arranged, s.arranged[at - 1], current);
      InsertedIsBlock(s.arranged, at, entries);
    } else {
      InsertedIsBlock(s.arranged, |s.arranged|, entries);
    }
  }

  lemma AddedCounts(s: seq<Entry>, current: Option<Entry>, next: bool, entries: seq<Entry>)
    ensures multiset(AddedTo(s, current, next, entries)) == multiset(s) + multiset(entries)
    ensures |AddedTo(s, current, next, entries)| == |s| + |entries|
  {
    if next && current.Some? && current.value.id in Ids(s) {
      InsertedCounts(s, Position(s, current.value.id).value + 1, entries);
    }
  }

  function Added(s: State, tracks: seq<TrackId>, next: bool): State {
    var entries := Numbered(tracks, s.nextItemId);
    s.(arranged := AddedTo(s.arranged, s.Current(), next, entries),
       shuffled := if s.shuffled.Some? then Some(AddedTo(s.shuffled.value, s.Current(), next, entries)) else None,
       nextItemId := s.nextItemId + |tracks|)
  }

  /** The two places entries are added at are right behind the current entry, or the ends. */
  lemma AddedWhere(s: State, tracks: seq<TrackId>, next: bool)
    requires Valid(s) && s.arranged != [] && (next ==> s.current < |s.arranged|)
    ensures var entries := Numbered(tracks, s.nextItemId);
            && |s.PlayOrder()| == |s.arranged|
            && AddedTo(s.PlayOrder(), s.Current(), next, entries)
               == Inserted(s.PlayOrder(), if next then s.current + 1 else |s.arranged|, entries)
            && (next ==> s.Current().Some? && s.Current().value.id in Ids(s.arranged))
            && AddedTo(s.arranged, s.Current(), next, entries)
               == Inserted(s.arranged,
                           if next then Position(s.arranged, s.Current().value.id).value + 1 else |s.arranged|, entries)
  {
    hide Valid, Distinct, Numbered;
    PlaysTheSame(s);
    var order := s.PlayOrder();
    if s.current < |order| {
      PositionIs(order, s.current);
      assert order[s.current] in order;
    }
  }

  /** The current entry stays. */
  lemma EntriesAdded(s: State, tracks: seq<TrackId>, next: bool)
    requires Valid(s) && s.arranged != [] && (next ==> s.current < |s.arranged|)
    ensures Valid(Added(s, tracks, next))
    ensures s.Current().Some? || tracks == [] ==> Added(s, tracks, next).Current() == s.Current()
  {
    hide Valid, Distinct, Numbered, AddedTo;
    AddedWhere(s, tracks, next);
    PlaysTheSame(s);
    CurrentInside(s);
    var entries := Numbered(tracks, s.nextItemId);
    AddedCounts(s.arranged, s.Current(), next, entries);
    AddedCounts(s.PlayOrder(), s.Current(), next, entries);
    MoreAreValid(s, Added(s, tracks, next), tracks);
  }

  lemma UpcomingHasIndex(s: State, id: ItemId)
    requires Valid(s)
    ensures id in Ids(s.Upcoming()) <==>
            Position(s.PlayOrder(), id).Some? && Position(s.PlayOrder(), id).value > s.current
  {
    hide Distinct;
    PlaysTheSame(s);
    var order := s.PlayOrder();
    if id in Ids(s.Upcoming()) {
      var e :| e in s.Upcoming() && e.id == id;
      var i :| 0 <= i < |s.Upcoming()| && s.Upcoming()[i] == e;
      assert order[s.current + 1 + i] == e;
      PositionIs(order, s.current + 1 + i);
    }
    var p := Position(order, id);
    if p.Some? && p.value > s.current {
      assert order[p.value] == s.Upcoming()[p.value - s.current - 1];
      assert order[p.value] in s.Upcoming();
    }
  }

  lemma OneDropped(s: State, index: nat)
    requires Valid(s) && s.current < index < |s.PlayOrder()|
    ensures var id := s.PlayOrder()[index].id;
            && Valid(Dropped(s, {id}, s.current))
            && Without(s.PlayOrder(), {id}) == s.PlayOrder()[..index] + s.PlayOrder()[index + 1..]
            && Without(s.PlayOrder(), {id})[..s.current + 1] == s.PlayOrder()[..s.current + 1]
            && |Without(s.PlayOrder(), {id})| + 1 == |s.PlayOrder()|
  {
    hide Valid, Distinct, Without;
    PlaysTheSame(s);
    TakenOut(s.PlayOrder(), index);
    DroppedIsValid(s, {s.PlayOrder()[index].id}, s.current);
  }

  /** Where a move to `to` among the upcoming entries ends. */
  function Target(s: State, to: nat): (t: nat)
    ensures s.current + 1 < |s.PlayOrder()| ==> s.current < t < |s.PlayOrder()|
  {
    if s.current + 1 + to < |s.PlayOrder()| then s.current + 1 + to
    else if |s.PlayOrder()| > 0 then |s.PlayOrder()| - 1
    else 0
  }

  /** The entry `id` plays at its target; nothing else changed its order, and nothing up to the current entry moved. */
  ghost predicate MovedTo(s: State, t: State, id: ItemId, to: nat) {
    && Without(t.PlayOrder(), {id}) == Without(s.PlayOrder(), {id})
    && Without(t.arranged, {id}) == Without(s.arranged, {id})
    && |t.PlayOrder()| == |s.PlayOrder()| && s.current < Target(s, to) < |t.PlayOrder()|
    && t.PlayOrder()[Target(s, to)].id == id
    && t.PlayOrder()[..s.current + 1] == s.PlayOrder()[..s.current + 1]
    && t.current == s.current
  }

  /** Of the upcoming entries the one with `id` is now at `to`, or last if there are not so many; the others keep their
      order. */
  ghost predicate AmongUpcoming(before: seq<Entry>, after: seq<Entry>, id: ItemId, to: nat) {
    && |after| == |before| > 0
    && after[if to < |after| then to else |after| - 1].id == id
    && Without(after, {id}) == Without(before, {id})
  }

  lemma LandsAmongUpcoming(s: State, t: State, id: ItemId, to: nat)
    requires MovedTo(s, t, id, to)
    ensures AmongUpcoming(s.Upcoming(), t.Upcoming(), id, to)
  {
    var n := s.current + 1;
    assert n + (if to < |t.Upcoming()| then to else |t.Upcoming()| - 1) == Target(s, to);
    assert s.PlayOrder() == s.PlayOrder()[..n] + s.Upcoming();
    assert t.PlayOrder() == s.PlayOrder()[..n] + t.Upcoming();
    hide Without;
    WithoutJoins(s.PlayOrder()[..n], s.Upcoming(), {id});
    WithoutJoins(s.PlayOrder()[..n], t.Upcoming(), {id});
    SameBehind(Without(s.PlayOrder()[..n], {id}), Without(s.Upcoming(), {id}), Without(t.Upcoming(), {id}));
  }

  lemma SameBehind<T>(a: seq<T>, b: seq<T>, c: seq<T>)
    requires a + b == a + c
    ensures b == c
  {
    assert b == (a + b)[|a|..] && c == (a + c)[|a|..];
  }

  /** In either order, the entry `id` is right behind the one that plays before it. */
  ghost predicate LandedBehind(s: State, t: State, id: ItemId) {
    exists i, j :: 1 <= i < |t.PlayOrder()| && 1 <= j < |t.arranged|
                   && t.PlayOrder()[i].id == id && t.arranged[j] == t.PlayOrder()[i]
                       && t.arranged[j - 1] == t.PlayOrder()[i - 1]
  }

  lemma StaysThere(s: State, index: nat, to: nat)
    requires s.current < index < |s.PlayOrder()| && Target(s, to) == index
    ensures MovedTo(s, s, s.PlayOrder()[index].id, to)
  {
  }

  /** The entry behind the one with `before`, or at the end without it. */
  function PlacedBehind(rest: seq<Entry>, before: ItemId, entry: Entry): seq<Entry> {
    var place := Position(rest, before);
    Inserted(rest, if place.Some? then place.value + 1 else |rest|, [entry])
  }

  lemma IsAtItsPlace(s: seq<Entry>, entry: Entry)
    requires Distinct(multiset(s)) && entry in s
    ensures var place := Position(s, entry.id);
            place.Some? && s[place.value] == entry
  {
    hide Distinct;
    assert entry.id in Ids(s);
    SameId(s, s[Position(s, entry.id).value], entry);
  }

  lemma PlacedRight(s: seq<Entry>, entry: Entry, before: Entry)
    requires Distinct(multiset(s)) && entry in s && before in s && before != entry
    ensures var rest := Without(s, {entry.id});
            var placed := PlacedBehind(rest, before.id, entry);
            && multiset(placed) == multiset(s) && Without(placed, {entry.id}) == rest
            && exists j :: 1 <= j < |placed| && placed[j] == entry && placed[j - 1] == before
  {
    hide *;
    var rest := Without(s, {entry.id});
    EntryOut(s, entry);
    StillThere(s, rest, entry, before);
    FewerAreDistinct(multiset(rest), multiset(s));
    IsAtItsPlace(rest, before);
    PlacedAt(rest, before, entry);
    PutBack(s, rest, entry, Position(rest, before.id).value + 1);
  }

  lemma EntryOut(s: seq<Entry>, entry: Entry)
    requires Distinct(multiset(s)) && entry in s
    ensures multiset(Without(s, {entry.id})) + multiset{entry} == multiset(s)
  {
    hide Distinct, Without;
    var i :| 0 <= i < |s| && s[i] == entry;
    TakenOut(s, i);
  }

  lemma PlacedAt(rest: seq<Entry>, before: Entry, entry: Entry)
    requires var place := Position(rest, before.id);
             place.Some? && rest[place.value] == before
    ensures var at := Position(rest, before.id).value + 1;
            var placed := PlacedBehind(rest, before.id, entry);
            && placed == Inserted(rest, at, [entry]) && at < |placed|
            && placed[at] == entry && placed[at - 1] == before
  {
    hide Position;
  }

  lemma StillThere(s: seq<Entry>, rest: seq<Entry>, entry: Entry, before: Entry)
    requires multiset(rest) + multiset{entry} == multiset(s) && before in s && before != entry
    ensures before in rest && multiset(rest) <= multiset(s)
  {
    assert before in multiset(s);
    assert multiset(rest)[before] == multiset(s)[before];
    assert before in multiset(rest);
  }

  function MovedOrder(order: seq<Entry>, index: nat, target: nat): (moved: seq<Entry>)
    requires index < |order| && target < |order|
    ensures |moved| == |order|
  {
    Inserted(order[..index] + order[index + 1..], target, [order[index]])
  }

  /** What a move of the entry at `index` to `target` makes of both orders. */
  function Moved(s: State, index: nat, target: nat): State
    requires index < |s.PlayOrder()| && 1 <= target < |s.PlayOrder()|
  {
    var order := s.PlayOrder();
    var moved := MovedOrder(order, index, target);
    if s.shuffled.Some?
    then s.(shuffled := Some(moved),
            arranged := Rearranged(s.arranged, order[index], moved[target - 1].id))
    else s.(arranged := moved)
  }

  function Rearranged(arranged: seq<Entry>, entry: Entry, before: ItemId): seq<Entry> {
    PlacedBehind(Without(arranged, {entry.id}), before, entry)
  }

  lemma MovedPositions(order: seq<Entry>, current: nat, index: nat, target: nat)
    requires current < index < |order| && current < target < |order| && index != target
    ensures var moved := MovedOrder(order, index, target);
            moved[target] == order[index] && moved[..current + 1] == order[..current + 1]
  {
  }

  lemma MovedElsewhere(order: seq<Entry>, current: nat, index: nat, target: nat)
    requires Distinct(multiset(order)) && current < index < |order| && current < target < |order| && index != target
    ensures var moved := MovedOrder(order, index, target);
            && multiset(moved) == multiset(order)
            && Without(moved, {order[index].id}) == Without(order, {order[index].id})
            && moved[target] == order[index] && moved[target - 1] != order[index] && moved[target - 1] in order
            && moved[..current + 1] == order[..current + 1] && moved != order
  {
    MovedPositions(order, current, index, target);
    MovedOne(order, index, target);
    assert MovedOrder(order, index, target) == Inserted(order[..index] + order[index + 1..], target, [order[index]]);
    hide *;
    var moved := MovedOrder(order, index, target);
    assert multiset(moved) == multiset(order);
    DistinctAt(moved, target - 1, target);
    DistinctAt(order, index, target);
    assert moved[target - 1] in multiset(moved);
  }

  lemma EntryRearranged(s: State, index: nat, target: nat)
    requires Valid(s) && s.shuffled.Some? && s.current < index < |s.PlayOrder()| && s.current < target < |s.PlayOrder()|
      && target != index
    ensures var entry := s.PlayOrder()[index];
            var before := MovedOrder(s.PlayOrder(), index, target)[target - 1];
            var placed := Rearranged(s.arranged, entry, before.id);
            && multiset(placed) == multiset(s.arranged)
                && Without(placed, {entry.id}) == Without(s.arranged, {entry.id})
            && exists j :: 1 <= j < |placed| && placed[j] == entry && placed[j - 1] == before
  {
    hide Valid, Distinct, Without, PlacedBehind, MovedOrder;
    PlaysTheSame(s);
    ArrangedIsDistinct(s);
    MovedElsewhere(s.PlayOrder(), s.current, index, target);
    PlacedRight(s.arranged, s.PlayOrder()[index], MovedOrder(s.PlayOrder(), index, target)[target - 1]);
  }

  lemma MovedIsValid(s: State, index: nat, target: nat)
    requires Valid(s) && s.current < index < |s.PlayOrder()| && s.current < target < |s.PlayOrder()| && target != index
    ensures Valid(Moved(s, index, target))
  {
    hide Valid, Distinct, Without, PlacedBehind, MovedOrder, Rearranged;
    PlaysTheSame(s);
    MovedElsewhere(s.PlayOrder(), s.current, index, target);
    if s.shuffled.Some? {
      EntryRearranged(s, index, target);
    }
    var t := Moved(s, index, target);
    assert |multiset(t.arranged)| == |multiset(s.arranged)|;
    FewerAreValid(s, t);
  }

  lemma EntryMoved(s: State, index: nat, to: nat)
    requires Valid(s) && s.current < index < |s.PlayOrder()| && Target(s, to) != index
    ensures var t := Moved(s, index, Target(s, to));
            var id := s.PlayOrder()[index].id;
            Valid(t) && MovedTo(s, t, id, to) && LandedBehind(s, t, id) && t.PlayOrder() != s.PlayOrder()
  {
    hide Valid, Distinct, Without, PlacedBehind, MovedOrder, Rearranged;
    var target := Target(s, to);
    PlaysTheSame(s);
    MovedElsewhere(s.PlayOrder(), s.current, index, target);
    MovedIsValid(s, index, target);
    var t := Moved(s, index, target);
    if s.shuffled.Some? {
      EntryRearranged(s, index, target);
    }
    assert t.PlayOrder() == MovedOrder(s.PlayOrder(), index, target);
    assert t.PlayOrder()[target] == s.PlayOrder()[index];
  }

  lemma ArrangedIsDistinct(s: State)
    requires Valid(s)
    ensures Distinct(multiset(s.arranged))
  {
  }

  lemma CurrentInside(s: State)
    requires Valid(s)
    ensures s.current <= |s.arranged|
  {
  }

  /** What dropping the upcoming entries leaves. */
  lemma UpcomingDropped(s: State)
    requires Valid(s)
    ensures var upcoming := s.Upcoming();
            if upcoming == [] then
              && Without(s.PlayOrder(), Ids(upcoming)) == s.PlayOrder()
              && Without(s.arranged, Ids(upcoming)) == s.arranged
            else
              && Without(s.PlayOrder(), Ids(upcoming)) == s.PlayOrder()[..s.current + 1]
              && Valid(s.(arranged := Without(s.arranged, Ids(upcoming)),
                          shuffled := if s.shuffled.Some? then Some(s.PlayOrder()[..s.current + 1]) else None))
  {
    hide Valid, Distinct, Without;
    PlaysTheSame(s);
    var order, upcoming := s.PlayOrder(), s.Upcoming();
    if upcoming == [] {
      assert Ids(upcoming) == {};
      WithoutOthers(order, Ids(upcoming));
      WithoutOthers(s.arranged, Ids(upcoming));
    } else {
      assert order == order[..s.current + 1] + upcoming;
      OnePartLeft(order[..s.current + 1], upcoming);
      DroppedIsValid(s, Ids(upcoming), s.current);
    }
  }

  /** Dropping the same ids from both orders. */
  function Dropped(s: State, ids: set<ItemId>, current: nat): State {
    s.(arranged := Without(s.arranged, ids),
       shuffled := if s.shuffled.Some? then Some(Without(s.shuffled.value, ids)) else None,
       current := current)
  }

  lemma DroppedIsValid(s: State, ids: set<ItemId>, current: nat)
    requires Valid(s) && current <= |Without(s.PlayOrder(), ids)|
    ensures Valid(Dropped(s, ids, current))
    ensures Dropped(s, ids, current).PlayOrder() == Without(s.PlayOrder(), ids)
  {
    hide Distinct, Without;
    PlaysTheSame(s);
    WithoutPermutes(s.PlayOrder(), s.arranged, ids);
    WithoutCounts(s.arranged, ids);
    var t := Dropped(s, ids, current);
    assert |multiset(t.arranged)| == |multiset(t.PlayOrder())|;
    FewerAreValid(s, t);
  }

  /** The entries before the current one that stay are before the one that is current then. */
  lemma EntriesDropped(s: State, ids: set<ItemId>)
    requires Valid(s) && s.current <= |s.PlayOrder()|
    ensures var before := Among(s.PlayOrder()[..s.current], ids);
            && before <= s.current
            && var t := Dropped(s, ids, s.current - before);
               && Valid(t) && t.current <= |t.PlayOrder()| && t.PlayOrder() == Without(s.PlayOrder(), ids)
               && t.PlayOrder()[..t.current] == Without(s.PlayOrder()[..s.current], ids)
               && t.PlayOrder()[t.current..] == Without(s.PlayOrder()[s.current..], ids)
  {
    hide Valid, Distinct, Without, Among;
    var order := s.PlayOrder();
    var head, tail := order[..s.current], order[s.current..];
    assert order == head + tail;
    WithoutJoins(head, tail, ids);
    var before := Among(head, ids);
    WithoutLength(head, ids);
    DroppedIsValid(s, ids, s.current - before);
  }

  lemma NothingDropped(s: State, ids: set<ItemId>)
    requires Valid(s) && s.current <= |s.PlayOrder()| && Ids(s.PlayOrder()) !! ids
    ensures Dropped(s, ids, s.current) == s && Among(s.PlayOrder()[..s.current], ids) == 0
  {
    hide Valid, Distinct, Without;
    var order := s.PlayOrder();
    PlaysTheSame(s);
    WithoutOthers(order, ids);
    WithoutOthers(s.arranged, ids);
    assert Ids(order[..s.current]) !! ids by {
      assert forall e :: e in order[..s.current] ==> e in order;
    }
    WithoutOthers(order[..s.current], ids);
  }

  lemma OneOut(s: seq<Entry>, index: nat)
    requires index < |s|
    ensures multiset{s[index]} + multiset(s[..index] + s[index + 1..]) == multiset(s)
  {
    assert s == s[..index] + [s[index]] + s[index + 1..];
  }

  lemma {:induction false} NumberedOneMore(tracks: seq<TrackId>, track: TrackId, first: ItemId)
    ensures Numbered(tracks + [track], first) == Numbered(tracks, first) + [Entry(first + |tracks|, track)]
  {
  }

  /** Distinct entries of the same id are the same. */
  lemma SameId(s: seq<Entry>, e: Entry, f: Entry)
    requires Distinct(multiset(s)) && e in s && f in s && e.id == f.id
    ensures e == f
  {
    assert e in multiset(s) && f in multiset(s);
  }
}
