/** Lists cut at the front and put one behind another. */
module Lists {
  import opened Arithmetic

  /** What is left of `s` behind its first `count` elements. */
  function Drop<T>(s: seq<T>, count: nat): seq<T> {
    if count <= |s| then s[count..] else []
  }

  lemma DropJoins<T>(a: seq<T>, b: seq<T>, count: nat)
    ensures Drop(a + b, count) == Drop(a, count) + Drop(b, Beyond(count, |a|))
  {
  }

  lemma DropTwice<T>(s: seq<T>, a: nat, b: nat)
    ensures Drop(Drop(s, a), b) == Drop(s, a + b)
  {
  }

  function Flat<T>(lists: seq<seq<T>>): seq<T> {
    if lists == [] then [] else lists[0] + Flat(lists[1..])
  }

  lemma {:induction false} FlatMore<T>(lists: seq<seq<T>>, last: seq<T>)
    ensures Flat(lists + [last]) == Flat(lists) + last
  {
    if lists == [] {
      assert [] + [last] == [last] && [last][1..] == [];
      assert Flat([last]) == last + Flat([]);
    } else {
      assert (lists + [last])[1..] == lists[1..] + [last];
      FlatMore(lists[1..], last);
    }
  }

  lemma {:induction false} FlatPrefix<T>(lists: seq<seq<T>>, i: nat)
    requires i <= |lists|
    ensures Flat(lists[..i]) <= Flat(lists)
  {
    if i > 0 {
      assert lists[..i][1..] == lists[1..][..i - 1];
      FlatPrefix(lists[1..], i - 1);
    }
  }

  lemma Regrouped<T>(a: seq<T>, b: seq<T>, c: seq<T>)
    ensures (a + b) + c == a + (b + c)
  {
  }
}
