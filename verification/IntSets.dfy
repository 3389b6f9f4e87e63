/** Least and greatest elements of finite sets of integers: SQL's MIN and MAX. */
module IntSets {
  ghost predicate IsMin(m: int, s: set<int>) { m in s && forall x <- s :: m <= x }
  ghost predicate IsMax(m: int, s: set<int>) { m in s && forall x <- s :: x <= m }

  function Min(s: set<int>): (m: int)
    requires s != {}
    ensures IsMin(m, s)
  {
    MinExists(s);
    var m :| m in s && forall x <- s :: m <= x;
    m
  }

  function Max(s: set<int>): (m: int)
    requires s != {}
    ensures IsMax(m, s)
  {
    MaxExists(s);
    var m :| m in s && forall x <- s :: x <= m;
    m
  }

  lemma Pick<T>(s: set<T>) returns (x: T)
    requires s != {}
    ensures x in s
  {
    x :| x in s;
  }

  lemma {:induction false} MinExists(s: set<int>)
    requires s != {}
    ensures exists m :: m in s && forall x <- s :: m <= x
  {
    var a := Pick(s);
    var others := s - {a};
    assert forall x <- s :: x == a || x in others;
    if others == {} {
      assert a in s && forall x <- s :: a <= x;
    } else {
      MinExists(others);
      var b :| b in others && forall x <- others :: b <= x;
      var m := if a <= b then a else b;
      assert m in s && forall x <- s :: m <= x;
    }
  }

  lemma {:induction false} MaxExists(s: set<int>)
    requires s != {}
    ensures exists m :: m in s && forall x <- s :: x <= m
  {
    var a := Pick(s);
    var others := s - {a};
    assert forall x <- s :: x == a || x in others;
    if others == {} {
      assert a in s && forall x <- s :: x <= a;
    } else {
      MaxExists(others);
      var b :| b in others && forall x <- others :: x <= b;
      var m := if b <= a then a else b;
      assert m in s && forall x <- s :: x <= m;
    }
  }
}
