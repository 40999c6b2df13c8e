/** Tables of one row per group of another table's rows (`GROUP BY`), and when replacing the rows of
    some groups is as good as computing all of them. */
module Grouping {

  ghost function Group<K, V, I>(table: map<K, V>, idOf: V -> I, id: I): map<K, V> {
    map k | k in table && idOf(table[k]) == id :: table[k]
  }

  ghost function Ids<K, V, I>(table: map<K, V>, idOf: V -> I): set<I> {
    set k | k in table :: idOf(table[k])
  }

  /** The rows of the groups in `ids` that have any rows to group. */
  ghost function Rows<K, V, I, R>(table: map<K, V>, idOf: V -> I, row: map<K, V> -> R, ids: set<I>): map<I, R> {
    map id | id in Ids(table, idOf) && id in ids :: row(Group(table, idOf, id))
  }

  ghost function AllRows<K, V, I, R>(table: map<K, V>, idOf: V -> I, row: map<K, V> -> R): map<I, R> {
    Rows(table, idOf, row, Ids(table, idOf))
  }

  ghost predicate Same<K, V>(before: map<K, V>, after: map<K, V>, k: K) {
    (k in before <==> k in after) && (k in before && k in after ==> before[k] == after[k])
  }

  /** Every row that changed, appeared or went was in a group of `ids`, and is. */
  ghost predicate DifferIn<K(!new), V, I>(before: map<K, V>, after: map<K, V>, idOf: V -> I, ids: set<I>) {
    forall k :: !Same(before, after, k) ==>
      (k in before ==> idOf(before[k]) in ids) && (k in after ==> idOf(after[k]) in ids)
  }

  lemma RowOfGroup<K, V, I>(table: map<K, V>, idOf: V -> I, id: I) returns (k: K)
    requires id in Ids(table, idOf)
    ensures k in Group(table, idOf, id)
  {
    k :| k in table && idOf(table[k]) == id;
  }

  lemma GroupUntouched<K(!new), V, I>(before: map<K, V>, after: map<K, V>, idOf: V -> I, ids: set<I>, id: I)
    requires DifferIn(before, after, idOf, ids) && id !in ids
    ensures Group(before, idOf, id) == Group(after, idOf, id)
    ensures id in Ids(before, idOf) <==> id in Ids(after, idOf)
  {
    forall k
      ensures k in Group(before, idOf, id) <==> k in Group(after, idOf, id)
      ensures k in Group(after, idOf, id) ==> before[k] == after[k]
    {
      assert Same(before, after, k) || k !in before || idOf(before[k]) in ids;
    }
    if id in Ids(before, idOf) {
      var k := RowOfGroup(before, idOf, id);
    }
    if id in Ids(after, idOf) {
      var k := RowOfGroup(after, idOf, id);
    }
  }

  /** Replacing the rows of the groups that changed gives the rows of all groups. */
  lemma RowsReplaced<K(!new), V, I(!new), R>(before: map<K, V>, after: map<K, V>, idOf: V -> I,
                                             row: map<K, V> -> R, ids: set<I>)
    requires DifferIn(before, after, idOf, ids)
    ensures (AllRows(before, idOf, row) - ids) + Rows(after, idOf, row, ids) == AllRows(after, idOf, row)
  {
    var replaced := (AllRows(before, idOf, row) - ids) + Rows(after, idOf, row, ids);
    var whole := AllRows(after, idOf, row);
    forall id
      ensures id in replaced <==> id in whole
      ensures id in whole ==> replaced[id] == whole[id]
    {
      if id !in ids {
        GroupUntouched(before, after, idOf, ids, id);
      }
    }
  }

  /** Rows replaced in two steps are rows replaced at once. */
  lemma RowsReplacedTogether<K, V, I, R>(rows: map<I, R>, table: map<K, V>, idOf: V -> I, row: map<K, V> -> R,
                                         first: set<I>, second: set<I>)
    ensures (((rows - first) + Rows(table, idOf, row, first)) - second) + Rows(table, idOf, row, second)
         == (rows - (first + second)) + Rows(table, idOf, row, first + second)
  {
  }
}
