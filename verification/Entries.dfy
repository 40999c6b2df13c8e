/** Lists of queue entries: what it takes to drop, place and find entries without losing or repeating one. */
module Entries {
  import opened Lists
  import opened Options

  type TrackId = nat
  type ItemId = nat

  datatype Entry = Entry(id: ItemId, track: TrackId)

  function Ids(s: seq<Entry>): set<ItemId> {
    set e | e in s :: e.id
  }

  /** No id names two entries, and no entry is there twice. */
  ghost predicate Distinct(m: multiset<Entry>) {
    && (forall e :: m[e] <= 1)
    && (forall e, f :: e in m && f in m && e.id == f.id ==> e == f)
  }

  /** The entries but those with `ids`, in their order. */
  function Without(s: seq<Entry>, ids: set<ItemId>): seq<Entry> {
    if s == [] then [] else Kept(s[0], ids) + Without(s[1..], ids)
  }

  function Kept(e: Entry, ids: set<ItemId>): seq<Entry> {
    if e.id in ids then [] else [e]
  }

  lemma {:induction false} WithoutCount(s: seq<Entry>, ids: set<ItemId>, e: Entry)
    ensures multiset(Without(s, ids))[e] == if e.id in ids then 0 else multiset(s)[e]
  {
    if s != [] {
      assert s == [s[0]] + s[1..];
      WithoutCount(s[1..], ids, e);
    }
  }

  lemma WithoutCounts(s: seq<Entry>, ids: set<ItemId>)
    ensures forall e :: multiset(Without(s, ids))[e] == if e.id in ids then 0 else multiset(s)[e]
    ensures forall e :: e in Without(s, ids) <==> e in s && e.id !in ids
    ensures multiset(Without(s, ids)) <= multiset(s)
  {
    forall e
      ensures multiset(Without(s, ids))[e] == if e.id in ids then 0 else multiset(s)[e]
      ensures e in Without(s, ids) <==> e in s && e.id !in ids
    {
      WithoutCount(s, ids, e);
      assert e in Without(s, ids) <==> multiset(Without(s, ids))[e] > 0;
      assert e in s <==> multiset(s)[e] > 0;
    }
  }

  /** Dropping the same ids keeps two orders of the same entries orders of the same entries. */
  lemma WithoutPermutes(a: seq<Entry>, b: seq<Entry>, ids: set<ItemId>)
    requires multiset(a) == multiset(b)
    ensures multiset(Without(a, ids)) == multiset(Without(b, ids))
  {
    WithoutCounts(a, ids);
    WithoutCounts(b, ids);
  }

  lemma {:induction false} WithoutJoins(a: seq<Entry>, b: seq<Entry>, ids: set<ItemId>)
    ensures Without(a + b, ids) == Without(a, ids) + Without(b, ids)
  {
    hide Kept;
    if a == [] {
      assert a + b == b;
    } else {
      WithoutJoins(a[1..], b, ids);
      assert (a + b)[0] == a[0] && (a + b)[1..] == a[1..] + b;
      Regrouped(Kept(a[0], ids), Without(a[1..], ids), Without(b, ids));
    }
  }

  lemma {:induction false} WithoutOthers(s: seq<Entry>, ids: set<ItemId>)
    requires Ids(s) !! ids
    ensures Without(s, ids) == s
  {
    if s != [] {
      assert s[0].id in Ids(s);
      assert forall e :: e in s[1..] ==> e in s;
      WithoutOthers(s[1..], ids);
    }
  }

  lemma {:induction false} WithoutAll(s: seq<Entry>, ids: set<ItemId>)
    requires Ids(s) <= ids
    ensures Without(s, ids) == []
  {
    if s != [] {
      assert s[0].id in Ids(s);
      assert forall e :: e in s[1..] ==> e in s;
      WithoutAll(s[1..], ids);
    }
  }

  lemma {:induction false} WithoutLength(s: seq<Entry>, ids: set<ItemId>)
    ensures |Without(s, ids)| <= |s|
  {
    if s != [] {
      WithoutLength(s[1..], ids);
    }
  }

  /** Fewer of distinct entries are distinct. */
  lemma FewerAreDistinct(fewer: multiset<Entry>, all: multiset<Entry>)
    requires Distinct(all) && fewer <= all
    ensures Distinct(fewer)
  {
    forall e ensures fewer[e] <= 1 {
      assert fewer[e] <= all[e] <= 1;
    }
    forall e, f | e in fewer && f in fewer && e.id == f.id ensures e == f {
      assert e in all && f in all;
    }
  }

  lemma ThereTwice(s: seq<Entry>, i: nat, j: nat)
    requires i < j < |s| && s[i] == s[j]
    ensures multiset(s)[s[i]] >= 2
  {
    assert s == s[..i] + [s[i]] + s[i + 1..j] + [s[j]] + s[j + 1..];
  }

  lemma DistinctAt(s: seq<Entry>, i: nat, j: nat)
    requires Distinct(multiset(s)) && i < |s| && j < |s|
    ensures s[i].id == s[j].id <==> i == j
  {
    assert s[i] in multiset(s) && s[j] in multiset(s);
    if i != j && s[i] == s[j] {
      ThereTwice(s, if i < j then i else j, if i < j then j else i);
    }
  }

  /** Distinct entries share no id between their parts. */
  lemma PartsAreApart(a: seq<Entry>, b: seq<Entry>)
    requires Distinct(multiset(a + b))
    ensures Ids(a) !! Ids(b)
  {
    hide Distinct;
    forall e, f | e in a && f in b ensures e.id != f.id {
      var i :| 0 <= i < |a| && a[i] == e;
      var j :| 0 <= j < |b| && b[j] == f;
      assert (a + b)[|a| + j] == f;
      DistinctAt(a + b, i, |a| + j);
    }
  }

  /** The part of distinct entries that is left when the ids of the other go. */
  lemma OnePartLeft(a: seq<Entry>, b: seq<Entry>)
    requires Distinct(multiset(a + b))
    ensures Without(a + b, Ids(b)) == a && Without(a + b, Ids(a)) == b
  {
    PartsAreApart(a, b);
    WithoutJoins(a, b, Ids(b));
    WithoutJoins(a, b, Ids(a));
    WithoutOthers(a, Ids(b));
    WithoutAll(b, Ids(b));
    WithoutAll(a, Ids(a));
    WithoutOthers(b, Ids(a));
  }

  /** Where `id` is. */
  function Position(s: seq<Entry>, id: ItemId): (p: Option<nat>)
    ensures p.Some? ==> p.value < |s| && s[p.value].id == id
    ensures p.None? <==> id !in Ids(s)
  {
    if s == [] then None
    else if s[0].id == id then
      assert s[0] in s;
      Some(0)
    else
      assert s == [s[0]] + s[1..];
      var rest := Position(s[1..], id);
      if rest.Some? then
        assert s[1..][rest.value] in s;
        Some(rest.value + 1)
      else None
  }

  lemma PositionIs(s: seq<Entry>, i: nat)
    requires Distinct(multiset(s)) && i < |s|
    ensures Position(s, s[i].id) == Some(i)
  {
    assert s[i] in s;
    assert s[i].id in Ids(s);
    DistinctAt(s, Position(s, s[i].id).value, i);
  }

  /** `more` placed before index `at`. */
  function Inserted(s: seq<Entry>, at: nat, more: seq<Entry>): seq<Entry>
    requires at <= |s|
  {
    s[..at] + (more + s[at..])
  }

  lemma InsertedCounts(s: seq<Entry>, at: nat, more: seq<Entry>)
    requires at <= |s|
    ensures multiset(Inserted(s, at, more)) == multiset(s) + multiset(more)
  {
    assert s == s[..at] + s[at..];
  }

  lemma OneIsApart(a: seq<Entry>, e: Entry, b: seq<Entry>)
    requires Distinct(multiset(a + ([e] + b)))
    ensures e.id !in Ids(a) && e.id !in Ids(b)
  {
    hide Distinct;
    var all := a + ([e] + b);
    assert all[|a|] == e;
    forall x | x in a ensures x.id != e.id {
      var i :| 0 <= i < |a| && a[i] == x;
      assert all[i] == x;
      DistinctAt(all, i, |a|);
    }
    forall x | x in b ensures x.id != e.id {
      var i :| 0 <= i < |b| && b[i] == x;
      assert all[|a| + 1 + i] == x;
      DistinctAt(all, |a| + 1 + i, |a|);
    }
  }

  lemma OneTakenOut(a: seq<Entry>, e: Entry, b: seq<Entry>)
    requires Distinct(multiset(a + ([e] + b)))
    ensures Without(a + ([e] + b), {e.id}) == a + b
  {
    hide Distinct, Without;
    OneIsApart(a, e, b);
    WithoutJoins(a, [e] + b, {e.id});
    WithoutJoins([e], b, {e.id});
    WithoutOthers(a, {e.id});
    WithoutOthers(b, {e.id});
    WithoutAll([e], {e.id});
  }

  lemma TakenOut(s: seq<Entry>, index: nat)
    requires Distinct(multiset(s)) && index < |s|
    ensures s[..index] + s[index + 1..] == Without(s, {s[index].id})
    ensures multiset(s[..index] + s[index + 1..]) + multiset{s[index]} == multiset(s)
  {
    hide Distinct, Without;
    assert s == s[..index] + ([s[index]] + s[index + 1..]);
    OneTakenOut(s[..index], s[index], s[index + 1..]);
  }

  /** Taking one of distinct entries out and putting it elsewhere moves only that one. */
  lemma MovedOne(s: seq<Entry>, index: nat, to: nat)
    requires Distinct(multiset(s)) && index < |s| && to < |s|
    ensures var rest := s[..index] + s[index + 1..];
            && rest == Without(s, {s[index].id})
            && multiset(Inserted(rest, to, [s[index]])) == multiset(s)
            && Without(Inserted(rest, to, [s[index]]), {s[index].id}) == rest
  {
    hide *;
    TakenOut(s, index);
    PutBack(s, s[..index] + s[index + 1..], s[index], to);
  }

  lemma PutBack(s: seq<Entry>, rest: seq<Entry>, e: Entry, to: nat)
    requires Distinct(multiset(s)) && multiset(rest) + multiset{e} == multiset(s) && to <= |rest|
    ensures multiset(Inserted(rest, to, [e])) == multiset(s) && Without(Inserted(rest, to, [e]), {e.id}) == rest
  {
    hide Distinct, Without;
    InsertedCounts(rest, to, [e]);
    assert rest[..to] + rest[to..] == rest;
    assert Inserted(rest, to, [e]) == rest[..to] + ([e] + rest[to..]);
    OneTakenOut(rest[..to], e, rest[to..]);
  }

  /** Any permutation of `s`, as the generator happens to choose. */
  method Shuffled(s: seq<Entry>) returns (r: seq<Entry>)
    ensures multiset(r) == multiset(s) && |r| == |s|
  {
    r := s;
    var i := |s|;
    while i > 1
      invariant i <= |s| == |r| && multiset(r) == multiset(s)
    {
      i := i - 1;
      var j :| 0 <= j <= i;
      r := Swapped(r, i, j);
    }
  }

  function Swapped(s: seq<Entry>, i: nat, j: nat): (r: seq<Entry>)
    requires i < |s| && j < |s|
    ensures multiset(r) == multiset(s) && |r| == |s| && r[i] == s[j] && r[j] == s[i]
  {
    s[i := s[j]][j := s[i]]
  }
}
