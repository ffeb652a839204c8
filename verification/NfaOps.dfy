// Union, concatenation, iteration and option on automata.
module NfaOps {
  import opened Nfa

  // ----- Union: both automata side by side -----

  // Pairs of states, row by row.
  function Ind(i: nat, j: nat, cols: nat): nat { i * cols + j }

  function RowOf(k: nat, cols: nat): nat
    requires cols > 0
  {
    k / cols
  }

  function ColOf(k: nat, cols: nat): nat
    requires cols > 0
  {
    k % cols
  }

  lemma IndInverse(i: nat, j: nat, cols: nat)
    requires j < cols
    ensures RowOf(Ind(i, j, cols), cols) == i && ColOf(Ind(i, j, cols), cols) == j
  {
    DivModUnique(i * cols + j, i, j, cols);
  }

  lemma DivModUnique(k: nat, q: nat, r: nat, d: nat)
    requires r < d && k == q * d + r
    ensures k / d == q && k % d == r
  {
    var q' := k / d;
    assert k == d * q' + k % d;
    Spread(q', q, d);
    Spread(q, q', d);
  }

  lemma Spread(x: nat, y: nat, d: nat)
    ensures x < y ==> d * x + d <= d * y
  {
    if x < y {
      assert d * (x + 1) <= d * y;
    }
  }

  lemma IndOf(k: nat, cols: nat)
    requires cols > 0
    ensures Ind(RowOf(k, cols), ColOf(k, cols), cols) == k && ColOf(k, cols) < cols
  {
  }

  lemma IndInRange(i: nat, j: nat, rows: nat, cols: nat)
    requires j < cols
    ensures i < rows <==> Ind(i, j, cols) < rows * cols
  {
    if i < rows {
      assert (i + 1) * cols <= rows * cols;
    } else {
      assert rows * cols <= i * cols;
    }
  }

  // Where one side goes on s: along its transition, to its sink when it has none.
  ghost predicate Moves<S>(n: NFA<S>, i: nat, s: S, t: nat)
    requires i < |n.trans|
  {
    if s in n.trans[i] then t in n.trans[i][s] else t == n.sink
  }

  ghost predicate IsProductRow<S(!new)>(a: NFA<S>, b: NFA<S>, i: nat, j: nat, row: map<S, set<nat>>, eps: set<nat>)
    requires i < |a.trans| && j < |b.trans| && |a.eps| == |a.trans| && |b.eps| == |b.trans|
  {
    var cols := |b.trans|;
    && (forall s :: s in row <==> s in a.trans[i] || s in b.trans[j])
    && (forall s, k: nat :: s in row ==> (k in row[s] <==> Moves(a, i, s, RowOf(k, cols)) && Moves(b, j, s, ColOf(k, cols))))
    && (forall k: nat :: k in eps <==>
          ((RowOf(k, cols) in a.eps[i] && ColOf(k, cols) == j) || (RowOf(k, cols) == i && ColOf(k, cols) in b.eps[j])))
  }

  ghost predicate IsUnion<S(!new)>(a: NFA<S>, b: NFA<S>, c: NFA<S>)
    requires Ok(a) && Ok(b)
  {
    var cols := |b.trans|;
    && c.sink == Ind(a.sink, b.sink, cols)
    && |c.trans| == |c.eps| == |a.trans| * cols
    && (forall k: nat :: k in c.initials <==> RowOf(k, cols) in a.initials && ColOf(k, cols) in b.initials)
    && (forall k: nat :: k in c.acceptings <==>
          RowOf(k, cols) < |a.trans| && (RowOf(k, cols) in a.acceptings || ColOf(k, cols) in b.acceptings))
    && forall i: nat, j: nat :: i < |a.trans| && j < cols ==> RowAt(a, b, c, i, j)
  }

  ghost predicate RowAt<S(!new)>(a: NFA<S>, b: NFA<S>, c: NFA<S>, i: nat, j: nat)
    requires i < |a.trans| && j < |b.trans| && |a.eps| == |a.trans| && |b.eps| == |b.trans|
  {
    Ind(i, j, |b.trans|) < |c.trans| && Ind(i, j, |b.trans|) < |c.eps|
    && IsProductRow(a, b, i, j, c.trans[Ind(i, j, |b.trans|)], c.eps[Ind(i, j, |b.trans|)])
  }

  // All pairs of two sets.
  method Pairs(xs: set<nat>, ys: set<nat>, cols: nat) returns (pairs: set<nat>)
    requires cols > 0 && forall y :: y in ys ==> y < cols
    ensures forall k: nat :: k in pairs <==> RowOf(k, cols) in xs && ColOf(k, cols) in ys
  {
    hide RowOf, ColOf, Ind;
    pairs := {};
    var rest := xs;
    while rest != {}
      invariant rest <= xs
      invariant forall k: nat :: k in pairs <==> RowOf(k, cols) in xs - rest && ColOf(k, cols) in ys
      decreases rest
    {
      var x :| x in rest;
      var more := ys;
      ghost var before := pairs;
      while more != {}
        invariant more <= ys
        invariant forall k: nat :: k in pairs <==> k in before || (RowOf(k, cols) == x && ColOf(k, cols) in ys - more)
        decreases more
      {
        var y :| y in more;
        IndInverse(x, y, cols);
        forall k: nat ensures k == Ind(x, y, cols) <==> RowOf(k, cols) == x && ColOf(k, cols) == y { IndOf(k, cols); }
        pairs := pairs + {Ind(x, y, cols)};
        more := more - {y};
      }
      rest := rest - {x};
    }
  }

  method ProductRow<S(==,!new)>(a: NFA<S>, b: NFA<S>, i: nat, j: nat) returns (row: map<S, set<nat>>, eps: set<nat>)
    requires Ok(a) && Ok(b) && i < |a.trans| && j < |b.trans|
    ensures IsProductRow(a, b, i, j, row, eps)
  {
    hide RowOf, ColOf;
    var cols := |b.trans|;
    assert forall y :: y in b.eps[j] ==> EpsEdge(b, j, y);
    var eps1 := Pairs(a.eps[i], {j}, cols);
    var eps2 := Pairs({i}, b.eps[j], cols);
    eps := eps1 + eps2;
    row := map[];
    var symbols := a.trans[i].Keys + b.trans[j].Keys;
    var rest := symbols;
    while rest != {}
      invariant rest <= symbols
      invariant row.Keys == symbols - rest
      invariant forall s, k: nat :: s in row ==> (k in row[s] <==> Moves(a, i, s, RowOf(k, cols)) && Moves(b, j, s, ColOf(k, cols)))
      decreases rest
    {
      var s :| s in rest;
      var nextsA := if s in a.trans[i] then a.trans[i][s] else {a.sink};
      var nextsB := if s in b.trans[j] then b.trans[j][s] else {b.sink};
      assert s in b.trans[j] ==> forall y :: y in nextsB ==> SymEdge(b, j, s, y);
      var targets := Pairs(nextsA, nextsB, cols);
      row := row[s := targets];
      rest := rest - {s};
    }
  }

  method Union<S(==,!new)>(a: NFA<S>, b: NFA<S>) returns (c: NFA<S>)
    requires Ok(a) && Ok(b)
    ensures IsUnion(a, b, c)
  {
    hide RowOf, ColOf, IsProductRow, Ok, Ind;
    OkParts(a);
    OkParts(b);
    var rows, cols := |a.trans|, |b.trans|;
    var initials := Pairs(a.initials, b.initials, cols);
    var trans, eps, acceptings := Product(a, b);
    c := NFA(initials, acceptings, Ind(a.sink, b.sink, cols), trans, eps);
    forall k: nat ensures RowOf(k, cols) < rows <==> k < rows * cols {
      IndOf(k, cols);
      IndInRange(RowOf(k, cols), ColOf(k, cols), rows, cols);
    }
    forall i: nat, j: nat | i < rows && j < cols ensures RowAt(a, b, c, i, j) {
      IndInRange(i, j, rows, cols);
      IndInverse(i, j, cols);
      assert Built(a, b, trans, eps, Ind(i, j, cols));
    }
  }

  // The transitions, epsilon moves and accepting states of all pairs.
  method Product<S(==,!new)>(a: NFA<S>, b: NFA<S>) returns (trans: seq<map<S, set<nat>>>, eps: seq<set<nat>>, acceptings: set<nat>)
    requires Ok(a) && Ok(b) && |b.trans| > 0
    ensures |trans| == |eps| == |a.trans| * |b.trans|
    ensures forall k: nat :: k < |trans| ==> Built(a, b, trans, eps, k)
    ensures forall k: nat :: k in acceptings <==>
      k < |trans| && (RowOf(k, |b.trans|) in a.acceptings || ColOf(k, |b.trans|) in b.acceptings)
  {
    hide RowOf, ColOf, IsProductRow;
    var rows, cols := |a.trans|, |b.trans|;
    trans, eps, acceptings := [], [], {};
    var i: nat := 0;
    while i < rows
      invariant i <= rows && |trans| == |eps| == i * cols
      invariant forall k: nat :: k < |trans| ==> Built(a, b, trans, eps, k)
      invariant forall k: nat :: k in acceptings <==> k < |trans| && (RowOf(k, cols) in a.acceptings || ColOf(k, cols) in b.acceptings)
    {
      var j: nat := 0;
      while j < cols
        invariant j <= cols && |trans| == |eps| == Ind(i, j, cols)
        invariant forall k: nat :: k < |trans| ==> Built(a, b, trans, eps, k)
        invariant forall k: nat :: k in acceptings <==> k < |trans| && (RowOf(k, cols) in a.acceptings || ColOf(k, cols) in b.acceptings)
      {
        IndInverse(i, j, cols);
        var row, e := ProductRow(a, b, i, j);
        if i in a.acceptings || j in b.acceptings {
          acceptings := acceptings + {Ind(i, j, cols)};
        }
        BuiltMore(a, b, trans, eps, i, j, row, e);
        trans, eps := trans + [row], eps + [e];
        j := j + 1;
      }
      i := i + 1;
    }
  }

  ghost predicate Built<S(!new)>(a: NFA<S>, b: NFA<S>, trans: seq<map<S, set<nat>>>, eps: seq<set<nat>>, k: nat)
    requires |a.eps| == |a.trans| && |b.eps| == |b.trans| && |b.trans| > 0 && k < |trans| && k < |eps|
  {
    var i, j := RowOf(k, |b.trans|), ColOf(k, |b.trans|);
    i < |a.trans| && j < |b.trans| && IsProductRow(a, b, i, j, trans[k], eps[k])
  }

  lemma BuiltMore<S(!new)>(a: NFA<S>, b: NFA<S>, trans: seq<map<S, set<nat>>>, eps: seq<set<nat>>, i: nat, j: nat,
                           row: map<S, set<nat>>, e: set<nat>)
    requires |a.eps| == |a.trans| && |b.eps| == |b.trans| && i < |a.trans| && j < |b.trans|
    requires |trans| == |eps| == Ind(i, j, |b.trans|) && forall k: nat :: k < |trans| ==> Built(a, b, trans, eps, k)
    requires IsProductRow(a, b, i, j, row, e)
    ensures forall k: nat :: k < |trans| + 1 ==> Built(a, b, trans + [row], eps + [e], k)
  {
    hide IsProductRow, RowOf, ColOf;
    IndInverse(i, j, |b.trans|);
    forall k: nat | k < |trans| + 1 ensures Built(a, b, trans + [row], eps + [e], k) {
      if k < |trans| { assert Built(a, b, trans, eps, k); }
    }
  }

  lemma OkParts<S(!new)>(n: NFA<S>)
    requires Ok(n)
    ensures |n.trans| == |n.eps| && |n.trans| > 0
    ensures forall q :: q in n.initials || q in n.acceptings ==> q < |n.trans|
  {
  }

  // ----- Concatenation: accepting states of the first lead to initial states of the second -----

  // States of the second automaton come after those of the first; the sinks are merged.
  function Shift<S>(a: NFA<S>, b: NFA<S>, j: nat): nat {
    if j == b.sink then a.sink else |a.trans| + j
  }

  function ShiftAll<S>(a: NFA<S>, b: NFA<S>, js: set<nat>): set<nat> {
    set j | j in js :: Shift(a, b, j)
  }

  function ShiftRow<S>(a: NFA<S>, b: NFA<S>, row: map<S, set<nat>>): map<S, set<nat>> {
    map s | s in row :: ShiftAll(a, b, row[s])
  }

  ghost predicate IsConcat<S(!new)>(a: NFA<S>, b: NFA<S>, c: NFA<S>)
    requires Ok(a) && Ok(b)
  {
    var n := |a.trans|;
    && c.initials == a.initials && c.acceptings == ShiftAll(a, b, b.acceptings) && c.sink == a.sink
    && |c.trans| == |c.eps| == n + |b.trans|
    && (forall i :: 0 <= i < n ==> c.trans[i] == a.trans[i])
    && (forall i :: 0 <= i < n ==> c.eps[i] == a.eps[i] + if i in a.acceptings then ShiftAll(a, b, b.initials) else {})
    && (forall j :: 0 <= j < |b.trans| ==> ShiftedAt(a, b, c.trans, c.eps, j))
  }

  ghost predicate ShiftedAt<S(!new)>(a: NFA<S>, b: NFA<S>, trans: seq<map<S, set<nat>>>, eps: seq<set<nat>>, j: nat)
    requires j < |b.trans| && |b.eps| == |b.trans|
  {
    var k := |a.trans| + j;
    k < |trans| && k < |eps| && trans[k] == ShiftRow(a, b, b.trans[j]) && eps[k] == ShiftAll(a, b, b.eps[j])
  }

  method ShiftedRow<S(==,!new)>(a: NFA<S>, b: NFA<S>, row: map<S, set<nat>>) returns (out: map<S, set<nat>>)
    ensures out == ShiftRow(a, b, row)
  {
    out := map[];
    var rest := row.Keys;
    while rest != {}
      invariant rest <= row.Keys && out.Keys == row.Keys - rest
      invariant forall s :: s in out ==> out[s] == ShiftAll(a, b, row[s])
      decreases rest
    {
      var s :| s in rest;
      var targets := ShiftedSet(a, b, row[s]);
      out := out[s := targets];
      rest := rest - {s};
    }
  }

  method ShiftedSet<S(==,!new)>(a: NFA<S>, b: NFA<S>, js: set<nat>) returns (out: set<nat>)
    ensures out == ShiftAll(a, b, js)
  {
    out := {};
    var rest := js;
    while rest != {}
      invariant rest <= js && out == ShiftAll(a, b, js - rest)
      decreases rest
    {
      var j :| j in rest;
      assert js - (rest - {j}) == (js - rest) + {j};
      out := out + {Shift(a, b, j)};
      rest := rest - {j};
    }
    assert js - rest == js;
  }

  method Concat<S(==,!new)>(a: NFA<S>, b: NFA<S>) returns (c: NFA<S>)
    requires Ok(a) && Ok(b)
    ensures IsConcat(a, b, c)
  {
    hide ShiftRow, ShiftAll;
    var n := |a.trans|;
    var trans, eps := a.trans, a.eps;
    var j := 0;
    while j < |b.trans|
      invariant j <= |b.trans| && |trans| == |eps| == n + j
      invariant forall i :: 0 <= i < n ==> trans[i] == a.trans[i] && eps[i] == a.eps[i]
      invariant forall x :: 0 <= x < j ==> ShiftedAt(a, b, trans, eps, x)
    {
      var row := ShiftedRow(a, b, b.trans[j]);
      var e := ShiftedSet(a, b, b.eps[j]);
      forall x | 0 <= x < j + 1 ensures ShiftedAt(a, b, trans + [row], eps + [e], x) {
        assert x < j ==> ShiftedAt(a, b, trans, eps, x);
      }
      trans, eps := trans + [row], eps + [e];
      j := j + 1;
    }
    var starts := ShiftedSet(a, b, b.initials);
    var rest := a.acceptings;
    while rest != {}
      invariant rest <= a.acceptings && |eps| == n + |b.trans|
      invariant forall i :: 0 <= i < n ==> eps[i] == a.eps[i] + if i in a.acceptings - rest then starts else {}
      invariant forall x :: 0 <= x < |b.trans| ==> ShiftedAt(a, b, trans, eps, x)
      decreases rest
    {
      var f :| f in rest;
      ghost var before := eps;
      eps := eps[f := eps[f] + starts];
      forall x | 0 <= x < |b.trans| ensures ShiftedAt(a, b, trans, eps, x) {
        assert ShiftedAt(a, b, trans, before, x);
      }
      rest := rest - {f};
    }
    var acceptings := ShiftedSet(a, b, b.acceptings);
    c := NFA(a.initials, acceptings, a.sink, trans, eps);
  }

  // ----- Iteration and option -----

  ghost predicate IsPlus<S>(n: NFA<S>, c: NFA<S>) {
    && c == n.(eps := c.eps) && |c.eps| == |n.eps|
    && forall q :: 0 <= q < |c.eps| ==> c.eps[q] == n.eps[q] + if q in n.acceptings then n.initials else {}
  }

  // Accepting states lead back to the initial states.
  method Plus<S(==,!new)>(n: NFA<S>) returns (c: NFA<S>)
    requires Ok(n)
    ensures IsPlus(n, c)
  {
    var eps := n.eps;
    var rest := n.acceptings;
    while rest != {}
      invariant rest <= n.acceptings && |eps| == |n.eps|
      invariant forall q :: 0 <= q < |eps| ==> eps[q] == n.eps[q] + if q in n.acceptings - rest then n.initials else {}
      decreases rest
    {
      var f :| f in rest;
      eps := eps[f := eps[f] + n.initials];
      rest := rest - {f};
    }
    c := n.(eps := eps);
  }

  // Initial states accept too.
  function Optional<S>(n: NFA<S>): NFA<S> {
    n.(acceptings := n.acceptings + n.initials)
  }

  method Star<S(==,!new)>(n: NFA<S>) returns (c: NFA<S>)
    requires Ok(n)
    ensures exists p :: IsPlus(n, p) && c == Optional(p)
  {
    var p := Plus(n);
    c := Optional(p);
  }
}
