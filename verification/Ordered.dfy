// Ordered sets of ids, as std::set iterates over them.
module Ordered {
  ghost predicate Increasing(xs: seq<nat>) {
    forall i, j :: 0 <= i < j < |xs| ==> xs[i] < xs[j]
  }

  // The elements of a set as std::set iterates over them.
  method Sorted(s: set<nat>) returns (xs: seq<nat>)
    ensures Increasing(xs) && forall x :: x in xs <==> x in s
  {
    xs := [];
    var rest := s;
    while rest != {}
      invariant Increasing(xs) && rest <= s
      invariant forall x :: x in xs <==> x in s - rest
      invariant forall x, y :: x in xs && y in rest ==> x < y
      decreases rest
    {
      var m := Smallest(rest);
      assert forall i :: 0 <= i < |xs| ==> xs[i] in xs;
      xs := xs + [m];
      rest := rest - {m};
    }
  }

  method Smallest(s: set<nat>) returns (m: nat)
    requires s != {}
    ensures m in s && forall x :: x in s ==> m <= x
  {
    m :| m in s;
    var rest := s - {m};
    while rest != {}
      invariant m in s && rest <= s
      invariant forall x :: x in s ==> x in rest || m <= x
      decreases rest
    {
      var x :| x in rest;
      if x < m { m := x; }
      rest := rest - {x};
    }
  }
}
