/** Least elements of total preorders, and the order texts sort in. The catalog's `MIN` and
    `ORDER BY ... LIMIT 1` are least elements. */
module Ordering {

  ghost predicate TotalPreorder<T(!new)>(leq: (T, T) -> bool) {
    && (forall x, y :: leq(x, y) || leq(y, x))
    && (forall x, y, z :: leq(x, y) && leq(y, z) ==> leq(x, z))
  }

  lemma {:induction false} LeastExists<T(!new)>(s: set<T>, leq: (T, T) -> bool)
    requires s != {} && TotalPreorder(leq)
    ensures exists m :: m in s && forall x :: x in s ==> leq(m, x)
  {
    var e :| e in s;
    var rest := s - {e};
    if rest == {} {
      assert forall x :: x in s && x != e ==> x in rest;
      LeastIs(s, leq, e, e);
    } else {
      LeastExists(rest, leq);
      var m :| m in rest && forall x :: x in rest ==> leq(m, x);
      LeastIs(s, leq, e, m);
    }
  }

  lemma LeastIs<T(!new)>(s: set<T>, leq: (T, T) -> bool, e: T, m: T)
    requires e in s && m in s && TotalPreorder(leq)
    requires forall x :: x in s && x != e ==> leq(m, x)
    ensures exists m :: m in s && forall x :: x in s ==> leq(m, x)
  {
    var least := if leq(m, e) then m else e;
    forall x | x in s ensures leq(least, x) {
      assert leq(e, e);
      assert leq(m, e) || leq(e, m);
    }
  }

  /** A least element of `s`. Ties are broken by one fixed choice for each set. */
  ghost function Least<T(!new)>(s: set<T>, leq: (T, T) -> bool): (m: T)
    requires s != {} && TotalPreorder(leq)
    ensures m in s && forall x :: x in s ==> leq(m, x)
  {
    LeastExists(s, leq);
    var m :| m in s && forall x :: x in s ==> leq(m, x);
    m
  }

  /** Texts compare by their characters, and a prefix comes first. */
  predicate TextLeq(a: string, b: string) {
    if a == "" then true
    else if b == "" then false
    else if a[0] != b[0] then a[0] < b[0]
    else TextLeq(a[1..], b[1..])
  }

  lemma TextOrder()
    ensures TotalPreorder(TextLeq)
  {
    forall a, b ensures TextLeq(a, b) || TextLeq(b, a) {
      TextTotal(a, b);
    }
    forall a, b, c | TextLeq(a, b) && TextLeq(b, c) ensures TextLeq(a, c) {
      TextTransitive(a, b, c);
    }
  }

  lemma TextTotal(a: string, b: string)
    ensures TextLeq(a, b) || TextLeq(b, a)
  {
  }

  lemma {:induction false} TextTransitive(a: string, b: string, c: string)
    requires TextLeq(a, b) && TextLeq(b, c)
    ensures TextLeq(a, c)
  {
    if a != "" && b != "" && c != "" && a[0] == b[0] && b[0] == c[0] {
      TextTransitive(a[1..], b[1..], c[1..]);
    }
  }

  lemma {:induction false} TextAntisymmetric(a: string, b: string)
    requires TextLeq(a, b) && TextLeq(b, a)
    ensures a == b
  {
    if a != "" && b != "" {
      TextAntisymmetric(a[1..], b[1..]);
      assert a == [a[0]] + a[1..] && b == [b[0]] + b[1..];
    }
  }

  /** Rows compare by their columns, the first that differs. */
  predicate TextsLeq(a: seq<string>, b: seq<string>) {
    if a == [] then true
    else if b == [] then false
    else if a[0] != b[0] then TextLeq(a[0], b[0])
    else TextsLeq(a[1..], b[1..])
  }

  lemma {:induction false} TextsTotal(a: seq<string>, b: seq<string>)
    ensures TextsLeq(a, b) || TextsLeq(b, a)
  {
    if a != [] && b != [] {
      TextTotal(a[0], b[0]);
      TextsTotal(a[1..], b[1..]);
    }
  }

  lemma {:induction false} TextsTransitive(a: seq<string>, b: seq<string>, c: seq<string>)
    requires TextsLeq(a, b) && TextsLeq(b, c)
    ensures TextsLeq(a, c)
  {
    if a != [] && b != [] && c != [] {
      if a[0] == b[0] == c[0] {
        TextsTransitive(a[1..], b[1..], c[1..]);
      } else if a[0] == c[0] {
        TextAntisymmetric(a[0], b[0]);
      } else if a[0] != b[0] && b[0] != c[0] {
        TextTransitive(a[0], b[0], c[0]);
      }
    }
  }

  /** `MIN` of a column of texts. */
  ghost function MinText(s: set<string>): (m: string)
    requires s != {}
    ensures m in s && forall x :: x in s ==> TextLeq(m, x)
  {
    TextOrder();
    Least(s, TextLeq)
  }

  predicate IntLeq(a: int, b: int) { a <= b }

  ghost function MinInt(s: set<int>): (m: int)
    requires s != {}
    ensures m in s && forall x :: x in s ==> m <= x
  {
    var m := Least(s, IntLeq);
    assert forall x :: x in s ==> IntLeq(m, x);
    m
  }
}
