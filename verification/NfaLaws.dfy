// What the operations do to languages.
module NfaLaws {
  import opened Nfa
  import opened NfaOps

  // ----- Union -----

  lemma UnionSym<S(!new)>(a: NFA<S>, b: NFA<S>, c: NFA<S>, i: nat, j: nat, s: S, k: nat)
    requires Ok(a) && Ok(b) && IsUnion(a, b, c) && i < |a.trans| && j < |b.trans|
    ensures SymEdge(c, Ind(i, j, |b.trans|), s, k) <==>
      (s in a.trans[i] || s in b.trans[j]) && Moves(a, i, s, RowOf(k, |b.trans|)) && Moves(b, j, s, ColOf(k, |b.trans|))
  {
    hide Ok, RowOf, ColOf, Ind, Moves;
    OkParts(a);
    OkParts(b);
    assert RowAt(a, b, c, i, j);
  }

  lemma UnionEps<S(!new)>(a: NFA<S>, b: NFA<S>, c: NFA<S>, i: nat, j: nat, k: nat)
    requires Ok(a) && Ok(b) && IsUnion(a, b, c) && i < |a.trans| && j < |b.trans|
    ensures EpsEdge(c, Ind(i, j, |b.trans|), k) <==>
      (EpsEdge(a, i, RowOf(k, |b.trans|)) && ColOf(k, |b.trans|) == j) || (RowOf(k, |b.trans|) == i && EpsEdge(b, j, ColOf(k, |b.trans|)))
  {
    hide RowOf, ColOf, Ind;
    assert RowAt(a, b, c, i, j);
  }

  // Where one side goes is a state.
  lemma MovesInRange<S(!new)>(n: NFA<S>, i: nat, s: S, t: nat)
    requires Ok(n) && i < |n.trans| && Moves(n, i, s, t)
    ensures t < |n.trans| && (SymEdge(n, i, s, t) || t == n.sink)
  {
    if s in n.trans[i] { assert SymEdge(n, i, s, t); }
  }

  // A path of the union is a path of the first automaton, unless that is left in its sink.
  lemma {:induction false} ProjectFirst<S(!new)>(a: NFA<S>, b: NFA<S>, c: NFA<S>, i: nat, j: nat, p: Path<S>)
    requires Ok(a) && Ok(b) && IsUnion(a, b, c) && i < |a.trans| && j < |b.trans| && Follows(c, Ind(i, j, |b.trans|), p)
    ensures var t := RowOf(End(Ind(i, j, |b.trans|), p), |b.trans|);
      t == a.sink || Reads(a, i, Word(p), t)
    decreases p
  {
    hide Ok, IsUnion, RowOf, ColOf, Ind, Reads;
    var cols := |b.trans|;
    match p
    case Stop =>
      IndInverse(i, j, cols);
      ReadsNothing(a, i);
    case Eps(k, r) =>
      UnionEps(a, b, c, i, j, k);
      IndOf(k, cols);
      EpsInRange(a, i, RowOf(k, cols));
      ProjectFirst(a, b, c, RowOf(k, cols), ColOf(k, cols), r);
      var t := RowOf(End(k, r), cols);
      if t != a.sink && EpsEdge(a, i, RowOf(k, cols)) { ReadsEps(a, i, RowOf(k, cols), Word(r), t); }
    case Read(s, k, r) =>
      UnionSym(a, b, c, i, j, s, k);
      IndOf(k, cols);
      MovesInRange(a, i, s, RowOf(k, cols));
      ProjectFirst(a, b, c, RowOf(k, cols), ColOf(k, cols), r);
      FirstStep(a, i, s, RowOf(k, cols), Word(r), RowOf(End(k, r), cols));
  }

  lemma EpsInRange<S(!new)>(n: NFA<S>, q: nat, t: nat)
    requires Ok(n) && q < |n.trans|
    ensures EpsEdge(n, q, t) ==> t < |n.trans|
  {
  }

  lemma FirstStep<S(!new)>(n: NFA<S>, i: nat, s: S, i1: nat, w: seq<S>, t: nat)
    requires Ok(n) && i < |n.trans| && Moves(n, i, s, i1) && (t == n.sink || Reads(n, i1, w, t))
    ensures t == n.sink || Reads(n, i, [s] + w, t)
  {
    if t != n.sink {
      var p :| Follows(n, i1, p) && Word(p) == w && End(i1, p) == t;
      if i1 == n.sink { SinkStays(n, p); }
      assert SymEdge(n, i, s, i1);
      ReadsSym(n, i, s, i1, w, t);
    }
  }

  lemma {:induction false} ProjectSecond<S(!new)>(a: NFA<S>, b: NFA<S>, c: NFA<S>, i: nat, j: nat, p: Path<S>)
    requires Ok(a) && Ok(b) && IsUnion(a, b, c) && i < |a.trans| && j < |b.trans| && Follows(c, Ind(i, j, |b.trans|), p)
    ensures var t := ColOf(End(Ind(i, j, |b.trans|), p), |b.trans|);
      t == b.sink || Reads(b, j, Word(p), t)
    decreases p
  {
    hide Ok, IsUnion, RowOf, ColOf, Ind, Reads;
    var cols := |b.trans|;
    match p
    case Stop =>
      IndInverse(i, j, cols);
      ReadsNothing(b, j);
    case Eps(k, r) =>
      UnionEps(a, b, c, i, j, k);
      IndOf(k, cols);
      EpsInRange(a, i, RowOf(k, cols));
      ProjectSecond(a, b, c, RowOf(k, cols), ColOf(k, cols), r);
      var t := ColOf(End(k, r), cols);
      if t != b.sink && EpsEdge(b, j, ColOf(k, cols)) { ReadsEps(b, j, ColOf(k, cols), Word(r), t); }
    case Read(s, k, r) =>
      UnionSym(a, b, c, i, j, s, k);
      IndOf(k, cols);
      MovesInRange(a, i, s, RowOf(k, cols));
      ProjectSecond(a, b, c, RowOf(k, cols), ColOf(k, cols), r);
      FirstStep(b, j, s, ColOf(k, cols), Word(r), ColOf(End(k, r), cols));
  }

  // The state one side goes to on s, whether or not it has a transition.
  lemma SomeMove<S(!new)>(n: NFA<S>, i: nat, s: S) returns (t: nat)
    requires Ok(n) && i < |n.trans|
    ensures Moves(n, i, s, t) && t < |n.trans|
  {
    if s in n.trans[i] {
      t :| t in n.trans[i][s];
      assert SymEdge(n, i, s, t);
    } else {
      t := n.sink;
    }
  }

  // A path of the first automaton is one of the union, whatever the second does.
  lemma {:induction false} LiftFirst<S(!new)>(a: NFA<S>, b: NFA<S>, c: NFA<S>, i: nat, j: nat, p: Path<S>) returns (j': nat)
    requires Ok(a) && Ok(b) && IsUnion(a, b, c) && i < |a.trans| && j < |b.trans| && Follows(a, i, p)
    ensures j' < |b.trans| && End(i, p) < |a.trans| && Reads(c, Ind(i, j, |b.trans|), Word(p), Ind(End(i, p), j', |b.trans|))
    decreases p
  {
    hide Ok, IsUnion, RowOf, ColOf, Ind, Reads;
    var cols := |b.trans|;
    match p
    case Stop =>
      j' := j;
      ReadsNothing(c, Ind(i, j, cols));
    case Eps(t, r) =>
      EpsInRange(a, i, t);
      j' := LiftFirst(a, b, c, t, j, r);
      IndInverse(t, j, cols);
      UnionEps(a, b, c, i, j, Ind(t, j, cols));
      ReadsEps(c, Ind(i, j, cols), Ind(t, j, cols), Word(r), Ind(End(t, r), j', cols));
    case Read(s, t, r) =>
      MovesInRange(a, i, s, t);
      var j1 := SomeMove(b, j, s);
      j' := LiftFirst(a, b, c, t, j1, r);
      IndInverse(t, j1, cols);
      UnionSym(a, b, c, i, j, s, Ind(t, j1, cols));
      ReadsSym(c, Ind(i, j, cols), s, Ind(t, j1, cols), Word(r), Ind(End(t, r), j', cols));
  }

  lemma {:induction false} LiftSecond<S(!new)>(a: NFA<S>, b: NFA<S>, c: NFA<S>, i: nat, j: nat, p: Path<S>) returns (i': nat)
    requires Ok(a) && Ok(b) && IsUnion(a, b, c) && i < |a.trans| && j < |b.trans| && Follows(b, j, p)
    ensures i' < |a.trans| && End(j, p) < |b.trans| && Reads(c, Ind(i, j, |b.trans|), Word(p), Ind(i', End(j, p), |b.trans|))
    decreases p
  {
    hide Ok, IsUnion, RowOf, ColOf, Ind, Reads;
    var cols := |b.trans|;
    match p
    case Stop =>
      i' := i;
      ReadsNothing(c, Ind(i, j, cols));
    case Eps(t, r) =>
      EpsInRange(b, j, t);
      i' := LiftSecond(a, b, c, i, t, r);
      IndInverse(i, t, cols);
      UnionEps(a, b, c, i, j, Ind(i, t, cols));
      ReadsEps(c, Ind(i, j, cols), Ind(i, t, cols), Word(r), Ind(i', End(t, r), cols));
    case Read(s, t, r) =>
      MovesInRange(b, j, s, t);
      var i1 := SomeMove(a, i, s);
      i' := LiftSecond(a, b, c, i1, t, r);
      IndInverse(i1, t, cols);
      UnionSym(a, b, c, i, j, s, Ind(i1, t, cols));
      ReadsSym(c, Ind(i, j, cols), s, Ind(i1, t, cols), Word(r), Ind(i', End(t, r), cols));
  }

  lemma UnionLanguage<S(!new)>(a: NFA<S>, b: NFA<S>, c: NFA<S>, w: seq<S>)
    requires Ok(a) && Ok(b) && IsUnion(a, b, c)
    ensures Accepts(c, w) <==> Accepts(a, w) || Accepts(b, w)
  {
    hide RowOf, ColOf, Ind;
    var cols := |b.trans|;
    if Accepts(c, w) {
      var q, t :| q in c.initials && t in c.acceptings && Reads(c, q, w, t);
      var p :| Follows(c, q, p) && Word(p) == w && End(q, p) == t;
      IndOf(q, cols);
      var i, j := RowOf(q, cols), ColOf(q, cols);
      ProjectFirst(a, b, c, i, j, p);
      ProjectSecond(a, b, c, i, j, p);
    }
    if Accepts(a, w) {
      var q, t :| q in a.initials && t in a.acceptings && Reads(a, q, w, t);
      var p :| Follows(a, q, p) && Word(p) == w && End(q, p) == t;
      var j :| j in b.initials;
      var j' := LiftFirst(a, b, c, q, j, p);
      IndInverse(q, j, cols);
      IndInverse(t, j', cols);
    }
    if Accepts(b, w) {
      var q, t :| q in b.initials && t in b.acceptings && Reads(b, q, w, t);
      var p :| Follows(b, q, p) && Word(p) == w && End(q, p) == t;
      var i :| i in a.initials;
      var i' := LiftSecond(a, b, c, i, q, p);
      IndInverse(i, q, cols);
      IndInverse(i', t, cols);
    }
  }

  lemma UnionOk<S(!new)>(a: NFA<S>, b: NFA<S>, c: NFA<S>)
    requires Ok(a) && Ok(b) && IsUnion(a, b, c)
    ensures Ok(c)
  {
    hide Ok, RowOf, ColOf, Ind, Moves;
    OkParts(a);
    OkParts(b);
    var rows, cols := |a.trans|, |b.trans|;
    SinkParts(a);
    SinkParts(b);
    IndInverse(a.sink, b.sink, cols);
    IndInRange(a.sink, b.sink, rows, cols);
    assert RowAt(a, b, c, a.sink, b.sink);
    assert c.trans[c.sink] == map[];
    forall k: nat ensures RowOf(k, cols) < rows <==> k < |c.trans| {
      IndOf(k, cols);
      IndInRange(RowOf(k, cols), ColOf(k, cols), rows, cols);
    }
    forall q: nat, t: nat | EpsEdge(c, q, t) ensures t < |c.trans| {
      IndOf(q, cols);
      UnionEps(a, b, c, RowOf(q, cols), ColOf(q, cols), t);
      EpsInRange(a, RowOf(q, cols), RowOf(t, cols));
    }
    forall q: nat, s, t: nat | SymEdge(c, q, s, t) ensures t < |c.trans| {
      IndOf(q, cols);
      UnionSym(a, b, c, RowOf(q, cols), ColOf(q, cols), s, t);
      MovesInRange(a, RowOf(q, cols), s, RowOf(t, cols));
    }
    forall q, s | 0 <= q < |c.trans| && s in c.trans[q] ensures c.trans[q][s] != {} {
      IndOf(q, cols);
      var i, j := RowOf(q, cols), ColOf(q, cols);
      assert RowAt(a, b, c, i, j);
      var i1 := SomeMove(a, i, s);
      var j1 := SomeMove(b, j, s);
      IndInverse(i1, j1, cols);
      assert Ind(i1, j1, cols) in c.trans[q][s];
    }
    var i :| i in a.initials;
    var j :| j in b.initials;
    IndInverse(i, j, cols);
    assert Ind(i, j, cols) in c.initials;
    OkFromParts(c);
  }

  lemma SinkParts<S(!new)>(n: NFA<S>)
    requires Ok(n)
    ensures n.sink < |n.trans| == |n.eps| && n.trans[n.sink] == map[] && n.eps[n.sink] == {}
    ensures n.sink !in n.initials && n.sink !in n.acceptings && n.initials != {}
  {
  }

  lemma OkFromParts<S(!new)>(n: NFA<S>)
    requires |n.trans| == |n.eps| && n.sink < |n.trans|
    requires n.initials != {} && n.sink !in n.initials && n.sink !in n.acceptings
    requires forall q :: q in n.initials || q in n.acceptings ==> q < |n.trans|
    requires forall q: nat, t: nat :: EpsEdge(n, q, t) ==> t < |n.trans|
    requires forall q: nat, s, t: nat :: SymEdge(n, q, s, t) ==> t < |n.trans|
    requires forall q, s :: 0 <= q < |n.trans| && s in n.trans[q] ==> n.trans[q][s] != {}
    requires n.trans[n.sink] == map[] && n.eps[n.sink] == {}
    ensures Ok(n)
  {
  }

  // ----- Concatenation -----

  // From a state of the first automaton: its own moves, or on from an accepting state.
  lemma ConcatSymFirst<S(!new)>(a: NFA<S>, b: NFA<S>, c: NFA<S>, q: nat, s: S, t: nat)
    requires Ok(a) && Ok(b) && IsConcat(a, b, c) && q < |a.trans|
    ensures SymEdge(c, q, s, t) <==> SymEdge(a, q, s, t)
  {
    hide ShiftAll;
  }

  lemma ConcatEpsFirst<S(!new)>(a: NFA<S>, b: NFA<S>, c: NFA<S>, q: nat, t: nat)
    requires Ok(a) && Ok(b) && IsConcat(a, b, c) && q < |a.trans|
    ensures EpsEdge(c, q, t) <==> EpsEdge(a, q, t) || (q in a.acceptings && t in ShiftAll(a, b, b.initials))
  {
    hide ShiftAll;
  }

  lemma ConcatSymSecond<S(!new)>(a: NFA<S>, b: NFA<S>, c: NFA<S>, j: nat, s: S, t: nat)
    requires Ok(a) && Ok(b) && IsConcat(a, b, c) && j < |b.trans|
    ensures SymEdge(c, |a.trans| + j, s, t) <==> exists j' :: SymEdge(b, j, s, j') && t == Shift(a, b, j')
  {
    assert ShiftedAt(a, b, c.trans, c.eps, j);
    if SymEdge(c, |a.trans| + j, s, t) {
      var j' :| j' in b.trans[j][s] && t == Shift(a, b, j');
      assert SymEdge(b, j, s, j');
    }
  }

  lemma ConcatEpsSecond<S(!new)>(a: NFA<S>, b: NFA<S>, c: NFA<S>, j: nat, t: nat)
    requires Ok(a) && Ok(b) && IsConcat(a, b, c) && j < |b.trans|
    ensures EpsEdge(c, |a.trans| + j, t) <==> exists j' :: EpsEdge(b, j, j') && t == Shift(a, b, j')
  {
    assert ShiftedAt(a, b, c.trans, c.eps, j);
    if EpsEdge(c, |a.trans| + j, t) {
      var j' :| j' in b.eps[j] && t == Shift(a, b, j');
      assert EpsEdge(b, j, j');
    }
  }

  lemma {:induction false} ConcatSink<S(!new)>(a: NFA<S>, b: NFA<S>, c: NFA<S>, p: Path<S>)
    requires Ok(a) && Ok(b) && IsConcat(a, b, c) && Follows(c, a.sink, p)
    ensures p == Stop
  {
    hide ShiftAll;
    SinkParts(a);
  }

  // From a state of the second automaton a path that does not die stays there.
  lemma {:induction false} ConcatInSecond<S(!new)>(a: NFA<S>, b: NFA<S>, c: NFA<S>, j: nat, p: Path<S>)
    requires Ok(a) && Ok(b) && IsConcat(a, b, c) && j < |b.trans| && Follows(c, |a.trans| + j, p)
    requires End(|a.trans| + j, p) >= |a.trans|
    ensures Reads(b, j, Word(p), End(|a.trans| + j, p) - |a.trans|)
    decreases p
  {
    hide Ok, IsConcat, Reads, ShiftAll;
    SinkParts(a);
    match p
    case Stop => ReadsNothing(b, j);
    case Eps(k, r) =>
      ConcatEpsSecond(a, b, c, j, k);
      var j' :| EpsEdge(b, j, j') && k == Shift(a, b, j');
      EpsInRange(b, j, j');
      if j' == b.sink { ConcatSink(a, b, c, r); }
      ConcatInSecond(a, b, c, j', r);
      ReadsEps(b, j, j', Word(r), End(k, r) - |a.trans|);
    case Read(s, k, r) =>
      ConcatSymSecond(a, b, c, j, s, k);
      var j' :| SymEdge(b, j, s, j') && k == Shift(a, b, j');
      MovesInRange(b, j, s, j');
      if j' == b.sink { ConcatSink(a, b, c, r); }
      ConcatInSecond(a, b, c, j', r);
      ReadsSym(b, j, s, j', Word(r), End(k, r) - |a.trans|);
  }

  // An accepting path goes through the first automaton to an accepting state,
  // then from an initial state through the second.
  lemma {:induction false} ConcatSplit<S(!new)>(a: NFA<S>, b: NFA<S>, c: NFA<S>, q: nat, p: Path<S>) returns (u: seq<S>, f: nat, i: nat, v: seq<S>)
    requires Ok(a) && Ok(b) && IsConcat(a, b, c) && q < |a.trans| && Follows(c, q, p) && End(q, p) >= |a.trans|
    ensures Word(p) == u + v && f in a.acceptings && i in b.initials
    ensures Reads(a, q, u, f) && Reads(b, i, v, End(q, p) - |a.trans|)
    decreases p
  {
    hide Ok, IsConcat, Reads;
    match p
    case Stop => assert false;
    case Eps(k, r) =>
      ConcatEpsFirst(a, b, c, q, k);
      if EpsEdge(a, q, k) {
        EpsInRange(a, q, k);
        u, f, i, v := ConcatSplit(a, b, c, k, r);
        ReadsEps(a, q, k, u, f);
      } else {
        i :| i in b.initials && k == Shift(a, b, i);
        SinkParts(b);
        OkParts(b);
        u, f, v := [], q, Word(r);
        ReadsNothing(a, q);
        ConcatInSecond(a, b, c, i, r);
        assert u + v == v;
      }
    case Read(s, k, r) =>
      ConcatSymFirst(a, b, c, q, s, k);
      MovesInRange(a, q, s, k);
      u, f, i, v := ConcatSplit(a, b, c, k, r);
      ReadsSym(a, q, s, k, u, f);
      assert Word(p) == ([s] + u) + v;
      u := [s] + u;
  }

  lemma {:induction false} ConcatLiftFirst<S(!new)>(a: NFA<S>, b: NFA<S>, c: NFA<S>, q: nat, p: Path<S>)
    requires Ok(a) && Ok(b) && IsConcat(a, b, c) && q < |a.trans| && Follows(a, q, p)
    ensures End(q, p) < |a.trans| && Reads(c, q, Word(p), End(q, p))
    decreases p
  {
    hide Ok, IsConcat, Reads, ShiftAll;
    match p
    case Stop => ReadsNothing(c, q);
    case Eps(k, r) =>
      ConcatEpsFirst(a, b, c, q, k);
      EpsInRange(a, q, k);
      ConcatLiftFirst(a, b, c, k, r);
      ReadsEps(c, q, k, Word(r), End(k, r));
    case Read(s, k, r) =>
      ConcatSymFirst(a, b, c, q, s, k);
      MovesInRange(a, q, s, k);
      ConcatLiftFirst(a, b, c, k, r);
      ReadsSym(c, q, s, k, Word(r), End(k, r));
  }

  lemma {:induction false} ConcatLiftSecond<S(!new)>(a: NFA<S>, b: NFA<S>, c: NFA<S>, j: nat, p: Path<S>)
    requires Ok(a) && Ok(b) && IsConcat(a, b, c) && j < |b.trans| && Follows(b, j, p) && End(j, p) != b.sink
    ensures Reads(c, |a.trans| + j, Word(p), |a.trans| + End(j, p))
    decreases p
  {
    hide Ok, IsConcat, Reads, ShiftAll;
    match p
    case Stop => ReadsNothing(c, |a.trans| + j);
    case Eps(k, r) =>
      ConcatEpsSecond(a, b, c, j, Shift(a, b, k));
      EpsInRange(b, j, k);
      if k == b.sink { SinkStays(b, r); }
      ConcatLiftSecond(a, b, c, k, r);
      ReadsEps(c, |a.trans| + j, Shift(a, b, k), Word(r), |a.trans| + End(k, r));
    case Read(s, k, r) =>
      ConcatSymSecond(a, b, c, j, s, Shift(a, b, k));
      MovesInRange(b, j, s, k);
      if k == b.sink { SinkStays(b, r); }
      ConcatLiftSecond(a, b, c, k, r);
      ReadsSym(c, |a.trans| + j, s, Shift(a, b, k), Word(r), |a.trans| + End(k, r));
  }

  // w is a word of the first followed by one of the second.
  ghost predicate AcceptsBoth<S(!new)>(a: NFA<S>, b: NFA<S>, w: seq<S>) {
    exists u, v :: w == u + v && Accepts(a, u) && Accepts(b, v)
  }

  lemma ConcatLanguage<S(!new)>(a: NFA<S>, b: NFA<S>, c: NFA<S>, w: seq<S>)
    requires Ok(a) && Ok(b) && IsConcat(a, b, c)
    ensures Accepts(c, w) <==> AcceptsBoth(a, b, w)
  {
    if Accepts(c, w) {
      var q, t :| q in c.initials && t in c.acceptings && Reads(c, q, w, t);
      var p :| Follows(c, q, p) && Word(p) == w && End(q, p) == t;
      var u, f, i, v := ConcatSplit(a, b, c, q, p);
      assert Accepts(a, u) && Accepts(b, v);
    }
    if AcceptsBoth(a, b, w) {
      var u, v :| w == u + v && Accepts(a, u) && Accepts(b, v);
      ConcatJoin(a, b, c, u, v);
    }
  }

  lemma ConcatJoin<S(!new)>(a: NFA<S>, b: NFA<S>, c: NFA<S>, u: seq<S>, v: seq<S>)
    requires Ok(a) && Ok(b) && IsConcat(a, b, c) && Accepts(a, u) && Accepts(b, v)
    ensures Accepts(c, u + v)
  {
    hide Ok, IsConcat, Reads, ShiftAll;
    OkParts(a);
    OkParts(b);
    SinkParts(b);
    var q, f :| q in a.initials && f in a.acceptings && Reads(a, q, u, f);
    var i, t :| i in b.initials && t in b.acceptings && Reads(b, i, v, t);
    ConcatReads(a, b, c, q, u, f, i, v, t);
    assert Shift(a, b, i) in ShiftAll(a, b, b.initials) by { ShiftIn(a, b, i); }
    ConcatEpsFirst(a, b, c, f, Shift(a, b, i));
    ReadsEps(c, f, Shift(a, b, i), v, |a.trans| + t);
    ReadsJoin(c, q, u, f, v, |a.trans| + t);
    ConcatEnds(a, b, c, q, t);
  }

  lemma ShiftIn<S(!new)>(a: NFA<S>, b: NFA<S>, i: nat)
    requires i in b.initials
    ensures Shift(a, b, i) in ShiftAll(a, b, b.initials)
  {
  }

  lemma ConcatReads<S(!new)>(a: NFA<S>, b: NFA<S>, c: NFA<S>, q: nat, u: seq<S>, f: nat, i: nat, v: seq<S>, t: nat)
    requires Ok(a) && Ok(b) && IsConcat(a, b, c) && q < |a.trans| && i < |b.trans| && t != b.sink
    requires Reads(a, q, u, f) && Reads(b, i, v, t)
    ensures Reads(c, q, u, f) && Reads(c, |a.trans| + i, v, |a.trans| + t)
  {
    hide Ok, IsConcat;
    var p :| Follows(a, q, p) && Word(p) == u && End(q, p) == f;
    ConcatLiftFirst(a, b, c, q, p);
    var r :| Follows(b, i, r) && Word(r) == v && End(i, r) == t;
    ConcatLiftSecond(a, b, c, i, r);
  }

  lemma ConcatEnds<S(!new)>(a: NFA<S>, b: NFA<S>, c: NFA<S>, q: nat, t: nat)
    requires Ok(a) && Ok(b) && IsConcat(a, b, c) && q in a.initials && t in b.acceptings
    ensures q in c.initials && |a.trans| + t in c.acceptings
  {
    assert Shift(a, b, t) in ShiftAll(a, b, b.acceptings);
  }

  lemma ConcatOk<S(!new)>(a: NFA<S>, b: NFA<S>, c: NFA<S>)
    requires Ok(a) && Ok(b) && IsConcat(a, b, c)
    ensures Ok(c)
  {
    hide Ok, ShiftRow;
    OkParts(a);
    OkParts(b);
    SinkParts(a);
    SinkParts(b);
    var n := |a.trans|;
    forall q: nat, t: nat | EpsEdge(c, q, t) ensures t < |c.trans| {
      if q < n { ConcatEpsFirst(a, b, c, q, t); EpsInRange(a, q, t); }
      else {
        ConcatEpsSecond(a, b, c, q - n, t);
        var j' :| EpsEdge(b, q - n, j') && t == Shift(a, b, j');
        EpsInRange(b, q - n, j');
      }
    }
    forall q: nat, s, t: nat | SymEdge(c, q, s, t) ensures t < |c.trans| {
      if q < n { ConcatSymFirst(a, b, c, q, s, t); MovesInRange(a, q, s, t); }
      else {
        ConcatSymSecond(a, b, c, q - n, s, t);
        var j' :| SymEdge(b, q - n, s, j') && t == Shift(a, b, j');
        MovesInRange(b, q - n, s, j');
      }
    }
    forall q, s | 0 <= q < |c.trans| && s in c.trans[q] ensures c.trans[q][s] != {} {
      ConcatTargets(a, b, c, q, s);
    }
    OkFromParts(c);
  }

  lemma ConcatTargets<S(!new)>(a: NFA<S>, b: NFA<S>, c: NFA<S>, q: nat, s: S)
    requires Ok(a) && Ok(b) && IsConcat(a, b, c) && q < |c.trans| && s in c.trans[q]
    ensures c.trans[q][s] != {}
  {
    var n := |a.trans|;
    if q >= n {
      assert ShiftedAt(a, b, c.trans, c.eps, q - n);
      var j' :| j' in b.trans[q - n][s];
      assert Shift(a, b, j') in c.trans[q][s];
    }
  }

  // ----- One or more -----

  lemma PlusEps<S(!new)>(n: NFA<S>, c: NFA<S>, q: nat, t: nat)
    requires IsPlus(n, c)
    ensures EpsEdge(c, q, t) <==> EpsEdge(n, q, t) || (q < |n.eps| && q in n.acceptings && t in n.initials)
  {
  }

  lemma PlusOk<S(!new)>(n: NFA<S>, c: NFA<S>)
    requires Ok(n) && IsPlus(n, c)
    ensures Ok(c)
  {
    forall q: nat, t: nat | EpsEdge(c, q, t) ensures t < |c.trans| {
      PlusEps(n, c, q, t);
    }
    forall q: nat, s, t: nat | SymEdge(c, q, s, t) ensures t < |c.trans| {
      PlusSym(n, c, q, s, t);
    }
  }

  // Every path to an accepting state is a path of the automaton to an accepting
  // state, and more accepted words after it.
  lemma {:induction false} PlusSplit<S(!new)>(n: NFA<S>, c: NFA<S>, q: nat, p: Path<S>) returns (u: seq<S>, f: nat, ws: seq<seq<S>>)
    requires Ok(n) && IsPlus(n, c) && Follows(c, q, p) && End(q, p) in n.acceptings
    ensures Word(p) == u + Flatten(ws) && f in n.acceptings && Reads(n, q, u, f) && AllAccepted(n, ws)
    decreases p
  {
    hide Ok, Reads, IsPlus;
    match p
    case Stop =>
      u, f, ws := [], q, [];
      ReadsNothing(n, q);
    case Eps(k, r) =>
      PlusEps(n, c, q, k);
      u, f, ws := PlusSplit(n, c, k, r);
      if EpsEdge(n, q, k) {
        ReadsEps(n, q, k, u, f);
      } else {
        assert Accepts(n, u);
        var more := [u] + ws;
        assert more[1..] == ws;
        ReadsNothing(n, q);
        assert Word(p) == [] + Flatten(more);
        u, f, ws := [], q, more;
      }
    case Read(s, k, r) =>
      assert SymEdge(n, q, s, k) by { PlusSym(n, c, q, s, k); }
      u, f, ws := PlusSplit(n, c, k, r);
      ReadsSym(n, q, s, k, u, f);
      assert Word(p) == ([s] + u) + Flatten(ws);
      u := [s] + u;
  }

  lemma PlusSym<S(!new)>(n: NFA<S>, c: NFA<S>, q: nat, s: S, t: nat)
    requires IsPlus(n, c)
    ensures SymEdge(c, q, s, t) <==> SymEdge(n, q, s, t)
  {
  }

  // Moves added to an automaton keep its paths.
  lemma {:induction false} MorePaths<S(!new)>(n: NFA<S>, c: NFA<S>, q: nat, p: Path<S>)
    requires forall q: nat, t: nat :: EpsEdge(n, q, t) ==> EpsEdge(c, q, t)
    requires forall q: nat, s, t: nat :: SymEdge(n, q, s, t) ==> SymEdge(c, q, s, t)
    requires Follows(n, q, p)
    ensures Follows(c, q, p)
    decreases p
  {
    match p
    case Stop =>
    case Eps(k, r) => MorePaths(n, c, k, r);
    case Read(s, k, r) => MorePaths(n, c, k, r);
  }

  lemma {:induction false} PlusJoin<S(!new)>(n: NFA<S>, c: NFA<S>, ws: seq<seq<S>>) returns (q: nat, f: nat)
    requires Ok(n) && IsPlus(n, c) && |ws| > 0 && AllAccepted(n, ws)
    ensures q in n.initials && f in n.acceptings && Reads(c, q, Flatten(ws), f)
    decreases ws
  {
    hide Ok, IsPlus;
    OkParts(n);
    var g;
    assert Accepts(n, ws[0]);
    q, g :| q in n.initials && g in n.acceptings && Reads(n, q, ws[0], g);
    var p :| Follows(n, q, p) && Word(p) == ws[0] && End(q, p) == g;
    forall q: nat, t: nat ensures EpsEdge(n, q, t) ==> EpsEdge(c, q, t) { PlusEps(n, c, q, t); }
    forall q: nat, s, t: nat ensures SymEdge(n, q, s, t) ==> SymEdge(c, q, s, t) { PlusSym(n, c, q, s, t); }
    MorePaths(n, c, q, p);
    if |ws| == 1 {
      f := g;
      assert ws[1..] == [];
      assert Flatten(ws) == ws[0];
    } else {
      var i;
      assert AllAccepted(n, ws[1..]);
      i, f := PlusJoin(n, c, ws[1..]);
      PlusEps(n, c, g, i);
      ReadsEps(c, g, i, Flatten(ws[1..]), f);
      ReadsJoin(c, q, ws[0], g, Flatten(ws[1..]), f);
    }
  }

  lemma PlusLanguage<S(!new)>(n: NFA<S>, c: NFA<S>, w: seq<S>)
    requires Ok(n) && IsPlus(n, c)
    ensures Accepts(c, w) <==> AcceptsSome(n, w)
  {
    if Accepts(c, w) {
      var q, t :| q in c.initials && t in c.acceptings && Reads(c, q, w, t);
      PlusFrom(n, c, q, w, t);
    }
    if AcceptsSome(n, w) {
      var ws :| |ws| > 0 && AllAccepted(n, ws) && Flatten(ws) == w;
      var q, f := PlusJoin(n, c, ws);
    }
  }

  lemma PlusFrom<S(!new)>(n: NFA<S>, c: NFA<S>, q: nat, w: seq<S>, t: nat)
    requires Ok(n) && IsPlus(n, c) && q in n.initials && t in n.acceptings && Reads(c, q, w, t)
    ensures AcceptsSome(n, w)
  {
    var p :| Follows(c, q, p) && Word(p) == w && End(q, p) == t;
    var u, f, ws := PlusSplit(n, c, q, p);
    assert Accepts(n, u);
    assert ([u] + ws)[1..] == ws;
    assert AllAccepted(n, [u] + ws) && Flatten([u] + ws) == w;
  }

  // ----- Any number, and option -----

  // Nothing leads into an initial state.
  ghost predicate InitialApart<S(!new)>(n: NFA<S>) {
    && (forall q: nat, t: nat :: EpsEdge(n, q, t) ==> t !in n.initials)
    && (forall q: nat, s, t: nat :: SymEdge(n, q, s, t) ==> t !in n.initials)
  }

  // w leads from an initial state to an initial state.
  ghost predicate Returning<S(!new)>(n: NFA<S>, w: seq<S>) {
    exists q, t :: q in n.initials && t in n.initials && Reads(n, q, w, t)
  }

  lemma ReturningNothing<S(!new)>(n: NFA<S>)
    requires n.initials != {}
    ensures Returning(n, [])
  {
    var q :| q in n.initials;
    ReadsNothing(n, q);
  }

  // Marking initial states accepting adds exactly the words that lead back to one.
  lemma OptionalAdds<S(!new)>(n: NFA<S>, w: seq<S>)
    ensures Accepts(Optional(n), w) <==> Accepts(n, w) || Returning(n, w)
  {
    forall q: nat, t: nat ensures Reads(Optional(n), q, w, t) <==> Reads(n, q, w, t) { SameReads(n, q, w, t); }
  }

  lemma SameReads<S(!new)>(n: NFA<S>, q: nat, w: seq<S>, t: nat)
    ensures Reads(Optional(n), q, w, t) <==> Reads(n, q, w, t)
  {
    if p :| Follows(Optional(n), q, p) && Word(p) == w && End(q, p) == t { SamePaths(n, q, p); }
    if p :| Follows(n, q, p) && Word(p) == w && End(q, p) == t { SamePaths(n, q, p); }
  }

  // Option is right for all words if and only if every word that leads from an
  // initial state to an initial state is empty or accepted.
  lemma OptionExact<S(!new)>(n: NFA<S>)
    requires n.initials != {}
    ensures (forall w :: Accepts(Optional(n), w) <==> Accepts(n, w) || w == [])
       <==> (forall w :: Returning(n, w) ==> w == [] || Accepts(n, w))
  {
    hide Accepts, Returning, Optional;
    ReturningNothing(n);
    forall w ensures Accepts(Optional(n), w) <==> Accepts(n, w) || Returning(n, w) { OptionalAdds(n, w); }
  }

  lemma ManyAppend<S(!new)>(n: NFA<S>, u: seq<S>, v: seq<S>)
    requires Accepts(n, u) && AcceptsMany(n, v)
    ensures AcceptsMany(n, u + v)
  {
    hide Accepts;
    var ws :| AllAccepted(n, ws) && Flatten(ws) == v;
    assert ([u] + ws)[1..] == ws;
    assert AllAccepted(n, [u] + ws) && Flatten([u] + ws) == u + v;
  }

  // w is read from q to an accepting state, and any number of accepted words follows.
  ghost predicate AcceptsFrom<S(!new)>(n: NFA<S>, q: nat, w: seq<S>) {
    exists u, f, v :: f in n.acceptings && Reads(n, q, u, f) && AcceptsMany(n, v) && w == u + v
  }

  lemma FromInitial<S(!new)>(n: NFA<S>, q: nat, w: seq<S>)
    requires q in n.initials && AcceptsFrom(n, q, w)
    ensures AcceptsMany(n, w)
  {
    var u, f, v :| f in n.acceptings && Reads(n, q, u, f) && AcceptsMany(n, v) && w == u + v;
    assert Accepts(n, u);
    ManyAppend(n, u, v);
  }

  lemma FromAccepting<S(!new)>(n: NFA<S>, q: nat, w: seq<S>)
    requires q in n.acceptings && AcceptsMany(n, w)
    ensures AcceptsFrom(n, q, w)
  {
    ReadsNothing(n, q);
    assert w == [] + w;
  }

  lemma FromEps<S(!new)>(n: NFA<S>, q: nat, k: nat, w: seq<S>)
    requires EpsEdge(n, q, k) && AcceptsFrom(n, k, w)
    ensures AcceptsFrom(n, q, w)
  {
    var u, f, v :| f in n.acceptings && Reads(n, k, u, f) && AcceptsMany(n, v) && w == u + v;
    ReadsEps(n, q, k, u, f);
  }

  lemma FromSym<S(!new)>(n: NFA<S>, q: nat, s: S, k: nat, w: seq<S>)
    requires SymEdge(n, q, s, k) && AcceptsFrom(n, k, w)
    ensures AcceptsFrom(n, q, [s] + w)
  {
    var u, f, v :| f in n.acceptings && Reads(n, k, u, f) && AcceptsMany(n, v) && w == u + v;
    ReadsSym(n, q, s, k, u, f);
    assert [s] + w == ([s] + u) + v;
  }

  // A path to an initial state, steps back from accepting states included.
  lemma {:induction false} PlusBack<S(!new)>(n: NFA<S>, c: NFA<S>, q: nat, p: Path<S>)
    requires IsPlus(n, c) && Follows(c, q, p) && End(q, p) in n.initials
    requires forall w :: Returning(n, w) ==> AcceptsMany(n, w)
    ensures Reads(n, q, Word(p), End(q, p)) || AcceptsFrom(n, q, Word(p))
    decreases p
  {
    hide IsPlus, Reads, AcceptsMany, AcceptsFrom;
    match p
    case Stop => ReadsNothing(n, q);
    case Eps(k, r) =>
      PlusEps(n, c, q, k);
      PlusBack(n, c, k, r);
      if EpsEdge(n, q, k) {
        if AcceptsFrom(n, k, Word(r)) { FromEps(n, q, k, Word(r)); } else { ReadsEps(n, q, k, Word(r), End(k, r)); }
      } else {
        if AcceptsFrom(n, k, Word(r)) { FromInitial(n, k, Word(r)); } else { assert Returning(n, Word(r)); }
        FromAccepting(n, q, Word(r));
      }
    case Read(s, k, r) =>
      PlusSym(n, c, q, s, k);
      PlusBack(n, c, k, r);
      if AcceptsFrom(n, k, Word(r)) { FromSym(n, q, s, k, Word(r)); } else { ReadsSym(n, q, s, k, Word(r), End(k, r)); }
  }

  lemma PlusReturns<S(!new)>(n: NFA<S>, c: NFA<S>, w: seq<S>)
    requires IsPlus(n, c) && Returning(n, w)
    ensures Returning(c, w)
  {
    var q, t :| q in n.initials && t in n.initials && Reads(n, q, w, t);
    var p :| Follows(n, q, p) && Word(p) == w && End(q, p) == t;
    MorePaths(n, c, q, p);
    assert Reads(c, q, w, t);
  }

  lemma ReturnsMany<S(!new)>(n: NFA<S>, c: NFA<S>, w: seq<S>)
    requires IsPlus(n, c) && Returning(c, w)
    requires forall w :: Returning(n, w) ==> AcceptsMany(n, w)
    ensures AcceptsMany(n, w)
  {
    hide AcceptsMany, AcceptsFrom;
    var q, t :| q in c.initials && t in c.initials && Reads(c, q, w, t);
    var p :| Follows(c, q, p) && Word(p) == w && End(q, p) == t;
    PlusBack(n, c, q, p);
    if AcceptsFrom(n, q, w) { FromInitial(n, q, w); } else { assert Returning(n, w); }
  }

  // Star is right for all words if and only if every word that leads from an
  // initial state to an initial state is any number of accepted words in a row.
  lemma StarExact<S(!new)>(n: NFA<S>, c: NFA<S>)
    requires Ok(n) && IsPlus(n, c)
    ensures (forall w :: Accepts(Optional(c), w) <==> AcceptsMany(n, w))
       <==> (forall w :: Returning(n, w) ==> AcceptsMany(n, w))
  {
    hide Accepts, Returning, AcceptsMany, AcceptsSome, Optional, Ok, IsPlus;
    assert c.initials != {} by { PlusStarts(n, c); }
    ReturningNothing(c);
    forall w
      ensures Accepts(Optional(c), w) <==> AcceptsSome(n, w) || Returning(c, w)
      ensures AcceptsMany(n, w) <==> w == [] || AcceptsSome(n, w)
      ensures Returning(n, w) ==> Returning(c, w)
    {
      OptionalAdds(c, w);
      PlusLanguage(n, c, w);
      ManyIsSomeOrNothing(n, w);
      if Returning(n, w) { PlusReturns(n, c, w); }
    }
    if forall w :: Returning(n, w) ==> AcceptsMany(n, w) {
      forall w | Returning(c, w) ensures AcceptsMany(n, w) { ReturnsMany(n, c, w); }
    }
  }

  lemma PlusStarts<S(!new)>(n: NFA<S>, c: NFA<S>)
    requires Ok(n) && IsPlus(n, c)
    ensures c.initials != {}
  {
  }

  // Nothing but the empty word leads back to an initial state that nothing leads into.
  lemma ApartReturns<S(!new)>(n: NFA<S>, w: seq<S>)
    requires InitialApart(n) && Returning(n, w)
    ensures w == []
  {
    var q, t :| q in n.initials && t in n.initials && Reads(n, q, w, t);
    var p :| Follows(n, q, p) && Word(p) == w && End(q, p) == t;
    NotBack(n, q, p);
  }

  lemma StarLanguage<S(!new)>(n: NFA<S>, c: NFA<S>, w: seq<S>)
    requires Ok(n) && IsPlus(n, c) && InitialApart(n)
    ensures Accepts(Optional(c), w) <==> AcceptsMany(n, w)
  {
    hide Accepts, AcceptsMany, Returning, AcceptsSome, Ok, IsPlus;
    forall v | Returning(n, v) ensures AcceptsMany(n, v) {
      ApartReturns(n, v);
      ManyIsSomeOrNothing(n, v);
    }
    StarExact(n, c);
  }

  lemma {:induction false} SamePaths<S(!new)>(n: NFA<S>, q: nat, p: Path<S>)
    ensures Follows(Optional(n), q, p) <==> Follows(n, q, p)
    decreases p
  {
    match p
    case Stop =>
    case Eps(k, r) => SamePaths(n, k, r);
    case Read(s, k, r) => SamePaths(n, k, r);
  }

  lemma OptionalOk<S(!new)>(n: NFA<S>)
    requires Ok(n)
    ensures Ok(Optional(n))
  {
    forall q: nat, t: nat | EpsEdge(Optional(n), q, t) ensures t < |n.trans| { assert EpsEdge(n, q, t); }
    forall q: nat, s, t: nat | SymEdge(Optional(n), q, s, t) ensures t < |n.trans| { assert SymEdge(n, q, s, t); }
  }

  lemma OptionLanguage<S(!new)>(n: NFA<S>, w: seq<S>)
    requires Ok(n) && InitialApart(n)
    ensures Accepts(Optional(n), w) <==> Accepts(n, w) || w == []
  {
    hide Accepts, Returning;
    forall v | Returning(n, v) ensures v == [] { ApartReturns(n, v); }
    OptionExact(n);
  }

  lemma {:induction false} NotBack<S(!new)>(n: NFA<S>, q: nat, p: Path<S>)
    requires InitialApart(n) && Follows(n, q, p) && End(q, p) in n.initials
    ensures p == Stop
    decreases p
  {
    match p
    case Stop =>
    case Eps(k, r) => NotBack(n, k, r);
    case Read(s, k, r) => NotBack(n, k, r);
  }

  // ----- Without that, star and option are wrong -----

  // Any number of one symbol, then the other: the first leads back to the initial state.
  function Looping(): NFA<bool> {
    NFA({0}, {1}, 2, [map[false := {0}, true := {1}], map[], map[]], [{}, {}, {}])
  }

  lemma {:induction false} LoopingWord(q: nat, p: Path<bool>)
    requires Follows(Looping(), q, p) && q <= 1 && End(q, p) == 1
    ensures q == 0 ==> Word(p) != [] && Word(p)[|Word(p)| - 1]
    decreases p
  {
    match p
    case Stop =>
    case Eps(t, r) => assert t in Looping().eps[q];
    case Read(s, t, r) =>
      assert t in Looping().trans[q][s];
      LoopingWord(t, r);
      if r != Stop && t == 0 { assert ([s] + Word(r))[|Word(r)|] == Word(r)[|Word(r)| - 1]; }
      if t == 1 { NothingFromOne(r); }
  }

  lemma {:induction false} NothingFromOne(p: Path<bool>)
    requires Follows(Looping(), 1, p)
    ensures p == Stop
  {
  }

  lemma LoopingLanguage(w: seq<bool>)
    requires Accepts(Looping(), w)
    ensures w != [] && w[|w| - 1]
  {
    var n := Looping();
    var q, t :| q in n.initials && t in n.acceptings && Reads(n, q, w, t);
    var p :| Follows(n, q, p) && Word(p) == w && End(q, p) == t;
    LoopingWord(q, p);
  }

  lemma LoopsBack(c: NFA<bool>)
    requires 0 in c.initials && 0 in c.acceptings && SymEdge(c, 0, false, 0)
    ensures Accepts(c, [false])
  {
    ReadsNothing(c, 0);
    ReadsSym(c, 0, false, 0, [], 0);
    assert [false] + [] == [false];
  }

  lemma StarAndOptionNeedIt(c: NFA<bool>)
    requires IsPlus(Looping(), c)
    ensures Ok(Looping()) && !InitialApart(Looping())
    ensures Accepts(Optional(Looping()), [false]) && !Accepts(Looping(), [false])
    ensures Accepts(Optional(c), [false]) && !AcceptsMany(Looping(), [false])
  {
    hide Accepts;
    var n := Looping();
    assert SymEdge(n, 0, false, 0);
    LoopsBack(Optional(n));
    LoopsBack(Optional(c));
    assert !Accepts(n, [false]) by { if Accepts(n, [false]) { LoopingLanguage([false]); } }
    forall ws | AllAccepted(n, ws) ensures Flatten(ws) != [false] {
      if ws != [] {
        LoopingLanguage(ws[0]);
        assert Flatten(ws)[|ws[0]| - 1] == ws[0][|ws[0]| - 1];
      }
    }
  }
}
