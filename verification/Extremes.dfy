/** The least and the greatest element of a set of integers. */
module Extremes {

  lemma {:induction false} AnElement<T>(s: set<T>) returns (x: T)
    requires s != {}
    ensures x in s
  {
    x :| x in s;
  }

  predicate IsLeast(m: int, s: set<int>) {
    m in s && forall x :: x in s ==> m <= x
  }

  lemma {:induction false} LeastExists(s: set<int>) returns (m: int)
    requires s != {}
    ensures IsLeast(m, s)
  {
    var y := AnElement(s);
    var rest := s - {y};
    m := y;
    if rest != {} {
      var n := LeastExists(rest);
      if n < y { m := n; }
    }
    forall x | x in s ensures m <= x {
      assert x == y || x in rest;
    }
  }

  function Least(s: set<int>): (m: int)
    requires s != {}
    ensures IsLeast(m, s)
  {
    assert exists m :: IsLeast(m, s) by { var m := LeastExists(s); }
    var m :| IsLeast(m, s);
    m
  }

  function Greatest(s: set<int>): (m: int)
    requires s != {}
    ensures m in s && forall x :: x in s ==> x <= m
  {
    var negated := set x | x in s :: -x;
    assert negated != {} by {
      var y := AnElement(s);
      assert -y in negated;
    }
    var least := Least(negated);
    assert forall x :: x in s ==> -x in negated;
    -least
  }
}
