/** Extremes of finite integer sets and fresh serial identifiers for the model's tables. */
module Keys {

  /** A set other than `{}` has a member. */
  lemma HasMember(s: set<int>)
    requires s != {}
    ensures exists x :: x in s
  {
    assert (forall x :: x !in s) ==> s == {};
  }

  lemma HasMemberNat(s: set<nat>)
    requires s != {}
    ensures exists x :: x in s
  {
    assert (forall x :: x !in s) ==> s == {};
  }

  lemma {:induction false} MaxExists(s: set<int>)
    requires s != {}
    ensures exists m :: IsMax(s, m)
    decreases |s|
  {
    HasMember(s);
    var x :| x in s;
    if s == {x} {
      assert forall y :: y in s ==> y == x;
      assert IsMax(s, x);
    } else {
      MaxExists(s - {x});
      var m :| IsMax(s - {x}, m);
      var top := if x > m then x else m;
      forall y | y in s
        ensures y <= top
      {
        if y != x {
          assert y in s - {x};
        }
      }
      assert IsMax(s, top);
    }
  }

  lemma {:induction false} MinExists(s: set<int>)
    requires s != {}
    ensures exists m :: IsMin(s, m)
    decreases |s|
  {
    HasMember(s);
    var x :| x in s;
    if s == {x} {
      assert forall y :: y in s ==> y == x;
      assert IsMin(s, x);
    } else {
      MinExists(s - {x});
      var m :| IsMin(s - {x}, m);
      var bottom := if x < m then x else m;
      forall y | y in s
        ensures bottom <= y
      {
        if y != x {
          assert y in s - {x};
        }
      }
      assert IsMin(s, bottom);
    }
  }

  predicate IsMax(s: set<int>, m: int) {
    m in s && forall y :: y in s ==> y <= m
  }

  predicate IsMin(s: set<int>, m: int) {
    m in s && forall y :: y in s ==> m <= y
  }

  /** The largest element of a non-empty set (`MAX(...)` in SQL). */
  function SetMax(s: set<int>): (m: int)
    requires s != {}
    ensures IsMax(s, m)
  {
    MaxExists(s);
    var m :| IsMax(s, m);
    m
  }

  /** The smallest element of a non-empty set. */
  function SetMin(s: set<int>): (m: int)
    requires s != {}
    ensures IsMin(s, m)
  {
    MinExists(s);
    var m :| IsMin(s, m);
    m
  }

  /** A `SERIAL` id for a new row: one past the largest id in use, or 1 for an empty table. */
  function FreshKey(keys: set<nat>): (k: nat)
    ensures k !in keys && k >= 1
    ensures forall j :: j in keys ==> j < k
  {
    if keys == {} then 1
    else
      HasMemberNat(keys);
      var ints := set j | j in keys :: j as int;
      var j0 :| j0 in keys;
      assert (j0 as int) in ints;
      var m := SetMax(ints);
      assert forall j :: j in keys ==> (j as int) in ints;
      assert m >= 0;
      m as nat + 1
  }
}
