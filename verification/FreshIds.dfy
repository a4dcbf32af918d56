/** Numbers for new rows and files. */
module FreshIds {

  /** One more than the largest of ids, and 1 when there is none: the INTEGER PRIMARY KEY that SQLite
      gives a row inserted with NULL, and the id that the CRUD store gives a new entity. */
  function NextId(ids: set<int>): (r: int)
    ensures r !in ids && forall i :: i in ids ==> i < r
    ensures r == 1 || r - 1 in ids
    ensures ids == {} ==> r == 1
  {
    assert forall i :: i in ids ==> exists m :: IsMax(ids, m) by {
      forall i | i in ids ensures exists m :: IsMax(ids, m) { HasMax(ids, i); }
    }
    if exists m :: m in ids && IsMax(ids, m) then
      var m :| m in ids && IsMax(ids, m);
      m + 1
    else 1
  }

  predicate IsMax(ids: set<int>, m: int) {
    m in ids && forall i :: i in ids ==> i <= m
  }

  lemma {:induction false} HasMax(ids: set<int>, some: int)
    requires some in ids
    ensures exists m :: IsMax(ids, m)
  {
    var m := some;
    var above := set i | i in ids && i > m;
    while exists i :: i in above
      invariant m in ids && above == set i | i in ids && i > m
      decreases above
    {
      m :| m in above;
      above := set i | i in ids && i > m;
    }
    assert forall i :: i in ids ==> (i in above <==> i > m);
    assert IsMax(ids, m);
  }
}
