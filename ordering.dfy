/** `order_by` on a date column: a set of row ids listed in ascending order
    of a key. The order among rows with equal keys is not fixed by the
    query, and the model does not fix it either. */
module Ordering {

  /** No id occurs twice. */
  predicate Distinct(r: seq<nat>) {
    forall i, j :: 0 <= i < j < |r| ==> r[i] != r[j]
  }

  /** Some id of a non-empty set has the least key. */
  lemma {:induction false} LeastKeyExists(ids: set<nat>, key: map<nat, int>)
    requires ids != {} && ids <= key.Keys
    ensures exists m :: m in ids && forall j :: j in ids ==> key[m] <= key[j]
    decreases |ids|
  {
    var x :| x in ids;
    if ids != {x} {
      var rest := ids - {x};
      LeastKeyExists(rest, key);
      var m :| m in rest && forall j :: j in rest ==> key[m] <= key[j];
      if key[x] <= key[m] {
        assert forall j :: j in ids ==> key[x] <= key[j];
      } else {
        assert forall j :: j in ids ==> key[m] <= key[j];
      }
    } else {
      assert forall j :: j in ids ==> j == x;
    }
  }

  /** The ids of `ids`, each once, in ascending order of `key`. */
  ghost function OrderByKey(ids: set<nat>, key: map<nat, int>): (r: seq<nat>)
    requires ids <= key.Keys
    ensures forall x :: x in r <==> x in ids
    ensures |r| == |ids|
    ensures Distinct(r)
    ensures forall i, j :: 0 <= i < j < |r| ==> key[r[i]] <= key[r[j]]
    decreases |ids|
  {
    if ids == {} then []
    else
      LeastKeyExists(ids, key);
      var m :| m in ids && forall j :: j in ids ==> key[m] <= key[j];
      var rest := OrderByKey(ids - {m}, key);
      assert forall i :: 0 <= i < |rest| ==> rest[i] in ids - {m};
      [m] + rest
  }
}
