/** What every module of the project may use. */
module Basics {

  /** A value that may be absent: a SQL NULL, a cache miss, a lookup with no row. */
  datatype Option<+T> = None | Some(value: T)

  lemma {:induction false} MinExists(s: set<nat>)
    requires s != {}
    ensures exists m :: m in s && forall x :: x in s ==> m <= x
  {
    var a :| a in s;
    var rest := s - {a};
    if rest == {} {
      assert s == {a};
    } else {
      MinExists(rest);
      var m :| m in rest && forall x :: x in rest ==> m <= x;
      assert forall x :: x in s ==> x == a || x in rest;
      var low := if a <= m then a else m;
      assert low in s && forall x :: x in s ==> low <= x;
    }
  }

  function Least(ids: set<nat>): (m: nat)
    requires ids != {}
    ensures m in ids
    ensures forall x :: x in ids ==> m <= x
  {
    MinExists(ids);
    var m :| m in ids && forall x :: x in ids ==> m <= x;
    m
  }
}
