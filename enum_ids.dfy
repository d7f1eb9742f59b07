/**
 * The `fromId` search shared by the integer-backed enumerations: walk the
 * constants in declaration order and return the first whose id equals the
 * given one, or null when none does.
 */
module EnumIds {
  import opened Wrappers

  /** The first constant of `values` whose id is `i`, or None. */
  function FindById<E>(values: seq<E>, id: E -> int, i: int): (r: Option<E>)
    ensures r.Some? ==> r.value in values && id(r.value) == i
    ensures r.None? <==> forall k :: 0 <= k < |values| ==> id(values[k]) != i
    ensures r.Some? ==> exists k :: 0 <= k < |values| && values[k] == r.value &&
                           forall j :: 0 <= j < k ==> id(values[j]) != i
  {
    if values == [] then None
    else if id(values[0]) == i then Some(values[0])
    else
      var r := FindById(values[1..], id, i);
      if r.Some? then
        ghost var k :| 0 <= k < |values[1..]| && values[1..][k] == r.value &&
                       forall j :: 0 <= j < k ==> id(values[1..][j]) != i;
        assert values[k + 1] == r.value;
        assert forall j :: 0 <= j < k + 1 ==> id(values[j]) != i by {
          forall j | 0 <= j < k + 1 ensures id(values[j]) != i {
            if j > 0 { assert values[j] == values[1..][j - 1]; }
          }
        }
        r
      else
        assert forall k :: 1 <= k < |values| ==> values[k] == values[1..][k - 1];
        r
  }

  /** No two constants share an id. */
  predicate DistinctIds<E>(values: seq<E>, id: E -> int) {
    forall j, k :: 0 <= j < k < |values| ==> id(values[j]) != id(values[k])
  }

  /** With distinct ids, the search inverts `id`: it finds a constant exactly when given that constant's id. */
  lemma {:induction false} FindByIdInverse<E>(values: seq<E>, id: E -> int, i: int, v: E)
    requires DistinctIds(values, id)
    requires v in values
    ensures FindById(values, id, i) == Some(v) <==> id(v) == i
  {
    if id(v) == i {
      var r := FindById(values, id, i);
      var k :| 0 <= k < |values| && values[k] == v;
      assert r.Some?;
      var m :| 0 <= m < |values| && values[m] == r.value &&
               forall j :: 0 <= j < m ==> id(values[j]) != i;
      assert id(values[m]) == id(values[k]);
      assert m == k;
    }
  }
}
