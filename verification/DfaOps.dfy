// The algebra on deterministic automata: lift, combine, make deterministic.
module DfaOps {
  import opened Dfa
  import opened Nfa
  import opened NfaLaws
  import opened NfaOps
  import opened Subset

  // A set of states that epsilon moves stay in and no symbol enters.
  lemma FreshFrom<S(!new)>(n: NFA<S>, start: set<nat>)
    requires n.initials <= start && Closed(n, start)
    requires forall q: nat, s, t: nat :: SymEdge(n, q, s, t) ==> t !in start
    ensures Fresh(n)
  {
    forall q: nat, s, t: nat | SymEdge(n, q, s, t) ensures !ReachedFrom(n, n.initials, t) {
      if ReachedFrom(n, n.initials, t) {
        var i :| i in n.initials && Reads(n, i, [], t);
        var p :| Follows(n, i, p) && Word(p) == [] && End(i, p) == t;
        ClosedStays(n, start, i, p);
      }
    }
  }

  lemma UnionFresh<S(!new)>(a: DFA<S>, b: DFA<S>, c: NFA<S>)
    requires DfaOk(a) && DfaOk(b) && Ok(Lift(a)) && Ok(Lift(b)) && IsUnion(Lift(a), Lift(b), c)
    ensures Fresh(c)
  {
    hide Ok, RowOf, ColOf, Ind, Moves, IsUnion;
    var cols := |b.trans|;
    UnionStates(Lift(a), Lift(b), c);
    var start := c.initials;
    forall q: nat, t: nat | q in start ensures !EpsEdge(c, q, t) {
      IndOf(q, cols);
      UnionEps(Lift(a), Lift(b), c, RowOf(q, cols), ColOf(q, cols), t);
      LiftNoEps(a, RowOf(q, cols), RowOf(t, cols));
      LiftNoEps(b, ColOf(q, cols), ColOf(t, cols));
    }
    forall q: nat, s, t: nat | SymEdge(c, q, s, t) ensures t !in start {
      IndOf(q, cols);
      UnionSym(Lift(a), Lift(b), c, RowOf(q, cols), ColOf(q, cols), s, t);
      NotToInitial(a, RowOf(q, cols), s, RowOf(t, cols));
    }
    FreshFrom(c, start);
  }

  // What a union's states are.
  lemma UnionStates<S(!new)>(a: NFA<S>, b: NFA<S>, c: NFA<S>)
    requires Ok(a) && Ok(b) && IsUnion(a, b, c)
    ensures |b.trans| > 0
    ensures forall q: nat :: q in c.initials ==> RowOf(q, |b.trans|) in a.initials && RowOf(q, |b.trans|) < |a.trans|
    ensures forall q: nat, t: nat :: EpsEdge(c, q, t) ==> RowOf(q, |b.trans|) < |a.trans|
    ensures forall q: nat, s, t: nat :: SymEdge(c, q, s, t) ==> RowOf(q, |b.trans|) < |a.trans|
  {
    hide RowOf, ColOf, Ind;
    var cols := |b.trans|;
    forall q: nat ensures q < |a.trans| * cols ==> RowOf(q, cols) < |a.trans| {
      IndOf(q, cols);
      IndInRange(RowOf(q, cols), ColOf(q, cols), |a.trans|, cols);
    }
  }

  // Neither a transition nor the sink is the initial state.
  lemma NotToInitial<S(!new)>(d: DFA<S>, i: nat, s: S, t: nat)
    requires DfaOk(d) && i < |d.trans| && Moves(Lift(d), i, s, t)
    ensures t != d.initial
  {
  }

  lemma ConcatFresh<S(!new)>(a: DFA<S>, b: DFA<S>, c: NFA<S>)
    requires DfaOk(a) && DfaOk(b) && Ok(Lift(a)) && Ok(Lift(b)) && IsConcat(Lift(a), Lift(b), c)
    ensures Fresh(c)
  {
    hide Ok, IsConcat, Lift, ShiftAll;
    LiftFacts(a);
    LiftFacts(b);
    ConcatSizes(Lift(a), Lift(b), c);
    var n := |a.trans|;
    var start := {a.initial, n + b.initial};
    forall q: nat, t: nat | q in start && EpsEdge(c, q, t) ensures t in start {
      if q == a.initial {
        ConcatEpsFirst(Lift(a), Lift(b), c, q, t);
        LiftNoEps(a, q, t);
        ShiftOfInitial(a, b, t);
      } else {
        ConcatEpsSecond(Lift(a), Lift(b), c, b.initial, t);
        var j :| EpsEdge(Lift(b), b.initial, j) && t == Shift(Lift(a), Lift(b), j);
        LiftNoEps(b, b.initial, j);
      }
    }
    forall q: nat, s, t: nat | SymEdge(c, q, s, t) ensures t !in start {
      if q < n {
        ConcatSymFirst(Lift(a), Lift(b), c, q, s, t);
        LiftTarget(a, q, s, t);
      } else {
        ConcatSymSecond(Lift(a), Lift(b), c, q - n, s, t);
        var j :| SymEdge(Lift(b), q - n, s, j) && t == Shift(Lift(a), Lift(b), j);
        LiftTarget(b, q - n, s, j);
      }
    }
    FreshFrom(c, start);
  }

  lemma LiftFacts<S(!new)>(d: DFA<S>)
    requires DfaOk(d)
    ensures |Lift(d).trans| == |d.trans| && Lift(d).sink == d.sink && Lift(d).initials == {d.initial} && d.sink != d.initial
    ensures d.initial < |d.trans| && d.sink < |d.trans|
  {
  }

  lemma LiftTarget<S(!new)>(d: DFA<S>, q: nat, s: S, t: nat)
    requires DfaOk(d) && SymEdge(Lift(d), q, s, t)
    ensures t < |d.trans| && t != d.initial
  {
    LiftEdges(d, q, s, t);
  }

  lemma ConcatSizes<S(!new)>(a: NFA<S>, b: NFA<S>, c: NFA<S>)
    requires Ok(a) && Ok(b) && IsConcat(a, b, c)
    ensures |c.trans| == |a.trans| + |b.trans| && c.initials == a.initials
    ensures forall q: nat, s, t: nat :: SymEdge(c, q, s, t) ==> q < |a.trans| + |b.trans|
  {
  }

  lemma ShiftOfInitial<S(!new)>(a: DFA<S>, b: DFA<S>, t: nat)
    requires DfaOk(a) && DfaOk(b)
    ensures t in ShiftAll(Lift(a), Lift(b), Lift(b).initials) ==> t == |a.trans| + b.initial
  {
  }

  lemma PlusFresh<S(!new)>(d: DFA<S>, c: NFA<S>)
    requires DfaOk(d) && IsPlus(Lift(d), c)
    ensures Fresh(c) && Fresh(Optional(c))
  {
    hide IsPlus, Lift;
    LiftFacts(d);
    var start := {d.initial};
    assert c.initials == start by { PlusInitials(Lift(d), c); }
    forall q: nat, t: nat | q in start && EpsEdge(c, q, t) ensures t in start {
      PlusEps(Lift(d), c, q, t);
      LiftNoEps(d, q, t);
    }
    forall q: nat, s, t: nat | SymEdge(c, q, s, t) ensures t !in start {
      PlusSym(Lift(d), c, q, s, t);
      LiftTarget(d, q, s, t);
    }
    FreshFrom(c, start);
    OptionalSameEdges(c);
    FreshFrom(Optional(c), start);
  }

  lemma PlusInitials<S(!new)>(n: NFA<S>, c: NFA<S>)
    requires IsPlus(n, c)
    ensures c.initials == n.initials
  {
  }

  lemma OptionalSameEdges<S(!new)>(n: NFA<S>)
    ensures Optional(n).initials == n.initials
    ensures forall q: nat, t: nat :: EpsEdge(Optional(n), q, t) <==> EpsEdge(n, q, t)
    ensures forall q: nat, s, t: nat :: SymEdge(Optional(n), q, s, t) <==> SymEdge(n, q, s, t)
  {
  }

  lemma OptionFresh<S(!new)>(d: DFA<S>)
    requires DfaOk(d)
    ensures Fresh(Optional(Lift(d)))
  {
    hide Lift;
    LiftFacts(d);
    OptionalSameEdges(Lift(d));
    forall q: nat, t: nat ensures !EpsEdge(Lift(d), q, t) { LiftNoEps(d, q, t); }
    forall q: nat, s, t: nat | SymEdge(Lift(d), q, s, t) ensures t !in {d.initial} { LiftTarget(d, q, s, t); }
    FreshFrom(Optional(Lift(d)), {d.initial});
  }

  // Lifted automata have what star and option need.
  lemma LiftInitialApart<S(!new)>(d: DFA<S>)
    requires DfaOk(d)
    ensures InitialApart(Lift(d))
  {
    hide Lift;
    LiftFacts(d);
    forall q: nat, t: nat ensures !EpsEdge(Lift(d), q, t) { LiftNoEps(d, q, t); }
    forall q: nat, s, t: nat | SymEdge(Lift(d), q, s, t) ensures t !in {d.initial} { LiftTarget(d, q, s, t); }
  }

  // ----- Symbols -----

  lemma UnionSymbols<S(!new)>(a: NFA<S>, b: NFA<S>, c: NFA<S>)
    requires Ok(a) && Ok(b) && IsUnion(a, b, c)
    ensures Symbols(c) <= Symbols(a) + Symbols(b)
  {
    hide Ok, RowOf, ColOf, Ind, Moves;
    OkParts(a);
    OkParts(b);
    var cols := |b.trans|;
    forall s | s in Symbols(c) ensures s in Symbols(a) + Symbols(b) {
      var q :| 0 <= q < |c.trans| && s in c.trans[q];
      IndOf(q, cols);
      IndInRange(RowOf(q, cols), ColOf(q, cols), |a.trans|, cols);
      assert RowAt(a, b, c, RowOf(q, cols), ColOf(q, cols));
      assert s in a.trans[RowOf(q, cols)] || s in b.trans[ColOf(q, cols)];
    }
  }

  lemma ConcatSymbols<S(!new)>(a: NFA<S>, b: NFA<S>, c: NFA<S>)
    requires Ok(a) && Ok(b) && IsConcat(a, b, c)
    ensures Symbols(c) <= Symbols(a) + Symbols(b)
  {
    var n := |a.trans|;
    forall s | s in Symbols(c) ensures s in Symbols(a) + Symbols(b) {
      var q :| 0 <= q < |c.trans| && s in c.trans[q];
      if q >= n {
        assert ShiftedAt(a, b, c.trans, c.eps, q - n);
        assert s in b.trans[q - n];
      } else {
        assert s in a.trans[q];
      }
    }
  }

  lemma SameTransSameSymbols<S(!new)>(n: NFA<S>, c: NFA<S>)
    requires IsPlus(n, c) || c == Optional(n)
    ensures Symbols(c) == Symbols(n)
  {
    assert c.trans == n.trans;
    forall s ensures s in Symbols(c) <==> s in Symbols(n) {}
  }

  // ----- The operators -----

  method Or<S(==,!new)>(a: Automata<S>, b: Automata<S>) returns (c: Automata<S>)
    requires DfaOk(a.dfa) && DfaOk(b.dfa)
    ensures fresh(c) && c.current == c.dfa.initial && DfaOk(c.dfa)
    ensures forall w :: Recognizes(c.dfa, w) <==> Recognizes(a.dfa, w) || Recognizes(b.dfa, w)
    ensures Labels(c.dfa) <= Labels(a.dfa) + Labels(b.dfa)
  {
    hide Labels, Symbols, Ok, IsUnion, Recognizes, Accepts, DfaOk, Fresh, Lift;
    var n1 := LiftAutomata(a.dfa);
    var n2 := LiftAutomata(b.dfa);
    LiftOk(a.dfa);
    LiftOk(b.dfa);
    var n3 := Union(n1, n2);
    UnionOk(n1, n2, n3);
    UnionFresh(a.dfa, b.dfa, n3);
    UnionSymbols(n1, n2, n3);
    LiftSymbols(a.dfa);
    LiftSymbols(b.dfa);
    var d := Deterministic(n3);
    c := new Automata(d);
    forall w ensures Recognizes(d, w) <==> Recognizes(a.dfa, w) || Recognizes(b.dfa, w) {
      UnionLanguage(n1, n2, n3, w);
      LiftLanguage(a.dfa, w);
      LiftLanguage(b.dfa, w);
    }
  }

  method Then<S(==,!new)>(a: Automata<S>, b: Automata<S>) returns (c: Automata<S>)
    requires DfaOk(a.dfa) && DfaOk(b.dfa)
    ensures fresh(c) && c.current == c.dfa.initial && DfaOk(c.dfa)
    ensures forall w :: Recognizes(c.dfa, w) <==> AcceptsBoth(Lift(a.dfa), Lift(b.dfa), w)
    ensures Labels(c.dfa) <= Labels(a.dfa) + Labels(b.dfa)
  {
    hide Labels, Symbols, Ok, IsConcat, Recognizes, Accepts, DfaOk, Fresh, Lift, AcceptsBoth;
    var n1 := LiftAutomata(a.dfa);
    var n2 := LiftAutomata(b.dfa);
    LiftOk(a.dfa);
    LiftOk(b.dfa);
    var n3 := Concat(n1, n2);
    ConcatOk(n1, n2, n3);
    ConcatFresh(a.dfa, b.dfa, n3);
    ConcatSymbols(n1, n2, n3);
    LiftSymbols(a.dfa);
    LiftSymbols(b.dfa);
    var d := Deterministic(n3);
    c := new Automata(d);
    forall w ensures Recognizes(d, w) <==> AcceptsBoth(n1, n2, w) {
      ConcatLanguage(n1, n2, n3, w);
    }
  }

  method OneOrMore<S(==,!new)>(a: Automata<S>) returns (c: Automata<S>)
    requires DfaOk(a.dfa)
    ensures fresh(c) && c.current == c.dfa.initial && DfaOk(c.dfa)
    ensures forall w :: Recognizes(c.dfa, w) <==> AcceptsSome(Lift(a.dfa), w)
    ensures Labels(c.dfa) <= Labels(a.dfa)
  {
    hide Labels, Symbols, Ok, IsPlus, Recognizes, Accepts, DfaOk, Fresh, Lift, AcceptsSome;
    var n := LiftAutomata(a.dfa);
    LiftOk(a.dfa);
    var p := Plus(n);
    PlusOk(n, p);
    PlusFresh(a.dfa, p);
    SameTransSameSymbols(n, p);
    LiftSymbols(a.dfa);
    var d := Deterministic(p);
    c := new Automata(d);
    forall w ensures Recognizes(d, w) <==> AcceptsSome(n, w) {
      PlusLanguage(n, p, w);
    }
  }

  method AnyNumber<S(==,!new)>(a: Automata<S>) returns (c: Automata<S>)
    requires DfaOk(a.dfa)
    ensures fresh(c) && c.current == c.dfa.initial && DfaOk(c.dfa)
    ensures forall w :: Recognizes(c.dfa, w) <==> AcceptsMany(Lift(a.dfa), w)
    ensures Labels(c.dfa) <= Labels(a.dfa)
  {
    hide Labels, Symbols, Ok, IsPlus, Recognizes, Accepts, DfaOk, Fresh, Lift, AcceptsMany, Optional, InitialApart;
    var n := LiftAutomata(a.dfa);
    LiftOk(a.dfa);
    LiftInitialApart(a.dfa);
    var s := Star(n);
    ghost var p :| IsPlus(n, p) && s == Optional(p);
    PlusOk(n, p);
    OptionalOk(p);
    PlusFresh(a.dfa, p);
    SameTransSameSymbols(n, p);
    LiftSymbols(a.dfa);
    SameTransSameSymbols(p, s);
    var d := Deterministic(s);
    c := new Automata(d);
    forall w ensures Recognizes(d, w) <==> AcceptsMany(n, w) {
      StarLanguage(n, p, w);
    }
  }

  method Maybe<S(==,!new)>(a: Automata<S>) returns (c: Automata<S>)
    requires DfaOk(a.dfa)
    ensures fresh(c) && c.current == c.dfa.initial && DfaOk(c.dfa)
    ensures forall w :: Recognizes(c.dfa, w) <==> Recognizes(a.dfa, w) || w == []
    ensures Labels(c.dfa) <= Labels(a.dfa)
  {
    hide Labels, Symbols, Ok, Recognizes, Accepts, DfaOk, Fresh, Lift, InitialApart;
    var n := LiftAutomata(a.dfa);
    LiftOk(a.dfa);
    LiftInitialApart(a.dfa);
    OptionalOk(n);
    OptionFresh(a.dfa);
    SameTransSameSymbols(n, Optional(n));
    LiftSymbols(a.dfa);
    var d := Deterministic(Optional(n));
    c := new Automata(d);
    forall w ensures Recognizes(d, w) <==> Recognizes(a.dfa, w) || w == [] {
      OptionLanguage(n, w);
      LiftLanguage(a.dfa, w);
    }
  }
}
