/** The least element of a set of numbers. */
module NatSets {
  function Min(ids: set<nat>): (m: nat)
    requires ids != {}
    ensures m in ids && forall i :: i in ids ==> m <= i
  {
    MinExists(ids);
    var m :| IsMin(ids, m);
    m
  }

  lemma MinExists(ids: set<nat>)
    requires ids != {}
    ensures exists m :: IsMin(ids, m)
  {
    var x :| x in ids;
    var rest := ids - {x};
    assert forall i :: i in ids <==> i == x || i in rest;
    if rest == {} {
      assert IsMin(ids, x);
    } else {
      MinExists(rest);
      var m :| IsMin(rest, m);
      assert IsMin(ids, if x < m then x else m);
    }
  }

  predicate IsMin(ids: set<nat>, m: nat) { m in ids && forall i :: i in ids ==> m <= i }
}
