// Running range automata on characters.
module RangeAutomaton {
  import opened Dfa
  import opened Ranges
  import opened Regex

  // The automaton recognizes some word of ranges that spells w.
  ghost predicate CharRecognizes(d: DFA<SymblRange>, w: string) {
    exists rs :: Spells(rs, w) && Recognizes(d, rs)
  }

  // q is where reading w leads: no word of ranges for w leads elsewhere but to the sink.
  ghost predicate Tracks(d: DFA<SymblRange>, w: string, q: nat) {
    && q < |d.trans|
    && (q != d.sink ==> exists rs :: Spells(rs, w) && Run(d, d.initial, rs) == q)
    && forall rs :: Spells(rs, w) ==> Run(d, d.initial, rs) == q || Run(d, d.initial, rs) == d.sink
  }

  // Where a character leads: along a range that contains it, to the sink if there is none.
  ghost predicate CharStep(d: DFA<SymblRange>, q: nat, c: char, t: nat) {
    q < |d.trans| &&
    ((exists r :: r in d.trans[q] && r.Contains(c) && d.trans[q][r] == t)
     || ((forall r :: r in d.trans[q] ==> !r.Contains(c)) && t == d.sink))
  }

  lemma TracksNothing(d: DFA<SymblRange>)
    requires DfaOk(d)
    ensures Tracks(d, [], d.initial)
  {
    assert Spells([], []) && Run(d, d.initial, []) == d.initial;
  }

  lemma SpellsSnoc(rs: seq<SymblRange>, w: string, c: char)
    requires Spells(rs, w + [c])
    ensures |rs| == |w| + 1 && Spells(rs[..|w|], w) && rs == rs[..|w|] + [rs[|w|]] && rs[|w|].Contains(c)
  {
    assert (w + [c])[|w|] == c;
    forall i | 0 <= i < |w| ensures rs[..|w|][i].Contains(w[i]) { assert (w + [c])[i] == w[i]; }
  }

  // One character more. That ranges do not overlap makes the range taken the only one.
  lemma TracksMore(d: DFA<SymblRange>, w: string, q: nat, c: char, t: nat)
    requires DfaOk(d) && Disjoint(Labels(d)) && Tracks(d, w, q) && CharStep(d, q, c, t)
    ensures Tracks(d, w + [c], t)
  {
    hide Disjoint, Labels, Spells;
    forall rs | Spells(rs, w + [c]) ensures Run(d, d.initial, rs) == t || Run(d, d.initial, rs) == d.sink {
      SpellsSnoc(rs, w, c);
      RunAppend(d, d.initial, rs[..|w|], [rs[|w|]]);
      RunLast(d, Run(d, d.initial, rs[..|w|]), rs[|w|]);
      OneRange(d, q, c, t, rs[|w|]);
    }
    if t != d.sink {
      var r :| r in d.trans[q] && r.Contains(c) && d.trans[q][r] == t;
      assert q != d.sink;
      var rs :| Spells(rs, w) && Run(d, d.initial, rs) == q;
      OneSpells(r, c);
      SpellsAppend(rs, [r], w, [c]);
      RunAppend(d, d.initial, rs, [r]);
      RunLast(d, q, r);
    }
  }

  lemma OneSpells(r: SymblRange, c: char)
    requires r.Contains(c)
    ensures Spells([r], [c])
  {
  }

  lemma {:induction false} RunLast(d: DFA<SymblRange>, q: nat, r: SymblRange)
    ensures Run(d, q, [r]) == Step(d, q, r)
  {
    assert [r][1..] == [];
  }

  lemma OneRange(d: DFA<SymblRange>, q: nat, c: char, t: nat, r: SymblRange)
    requires DfaOk(d) && Disjoint(Labels(d)) && CharStep(d, q, c, t) && r.Contains(c)
    ensures Step(d, q, r) == t || Step(d, q, r) == d.sink
    ensures Step(d, d.sink, r) == d.sink
  {
    if r in d.trans[q] {
      var s :| s in d.trans[q] && s.Contains(c) && d.trans[q][s] == t;
      assert r in Labels(d) && s in Labels(d);
    }
  }

  // The state tells whether the word is recognized.
  lemma TracksAccepts(d: DFA<SymblRange>, w: string, q: nat)
    requires DfaOk(d) && Tracks(d, w, q)
    ensures q in d.acceptings <==> CharRecognizes(d, w)
  {
    hide Spells;
    if q in d.acceptings {
      var rs :| Spells(rs, w) && Run(d, d.initial, rs) == q;
    }
  }

  // From the sink nothing is recognized any more.
  lemma StuckForGood(d: DFA<SymblRange>, w: string, v: string)
    requires DfaOk(d) && Tracks(d, w, d.sink)
    ensures !CharRecognizes(d, w + v)
  {
    forall rs | Spells(rs, w + v) ensures !Recognizes(d, rs) {
      var head, tail := rs[..|w|], rs[|w|..];
      assert rs == head + tail;
      assert Spells(head, w) by {
        forall i | 0 <= i < |w| ensures head[i].Contains(w[i]) { assert (w + v)[i] == w[i]; }
      }
      RunAppend(d, d.initial, head, tail);
      RunFromSink(d, tail);
    }
  }

  // A built automaton recognizes, in characters, what the expression matches.
  lemma {:induction false} ImplementsMatches(d: DFA<SymblRange>, r: Rex<SymblRange>, w: string)
    requires Implements(d, r)
    ensures CharRecognizes(d, w) <==> Matches(r, w)
  {
    hide Matches, Denotes, Spells;
    MatchesIsSpelled(r, w);
  }

  class RangeAutomata {
    const inner: Automata<SymblRange>

    constructor (inner: Automata<SymblRange>)
      ensures this.inner == inner
    {
      this.inner := inner;
    }

    ghost predicate Valid()
      reads inner
    {
      DfaOk(inner.dfa) && Disjoint(Labels(inner.dfa)) && inner.current < |inner.dfa.trans|
    }

    predicate InAccepting()
      reads inner
    {
      inner.InAccepting()
    }

    predicate Stuck()
      reads inner
    {
      inner.current == inner.dfa.sink
    }

    method Reset()
      requires Valid()
      modifies inner
      ensures Valid() && Tracks(inner.dfa, [], inner.current)
    {
      inner.Reset();
      TracksNothing(inner.dfa);
    }

    // Looks for a range that contains the character, in no particular order.
    method Process(c: char, ghost w: string)
      requires Valid() && Tracks(inner.dfa, w, inner.current)
      modifies inner
      ensures Valid() && Tracks(inner.dfa, w + [c], inner.current)
    {
      var row := inner.dfa.trans[inner.current];
      ghost var q := inner.current;
      var rest := row.Keys;
      while rest != {}
        invariant rest <= row.Keys && inner.current == q
        invariant forall r :: r in row && r !in rest ==> !r.Contains(c)
        decreases rest
      {
        var range :| range in rest;
        rest := rest - {range};
        if range.Contains(c) {
          TracksMore(inner.dfa, w, q, c, row[range]);
          inner.ForceState(row[range]);
          return;
        }
      }
      TracksMore(inner.dfa, w, q, c, inner.dfa.sink);
      inner.ForceState(inner.dfa.sink);
    }

    // Whether the automaton recognizes a word.
    method Test(w: string) returns (accepted: bool)
      requires Valid()
      modifies inner
      ensures Valid() && (accepted <==> CharRecognizes(inner.dfa, w))
    {
      Reset();
      var k := 0;
      while k < |w|
        invariant k <= |w| && Valid() && Tracks(inner.dfa, w[..k], inner.current)
      {
        Process(w[k], w[..k]);
        assert w[..k + 1] == w[..k] + [w[k]];
        k := k + 1;
      }
      assert w[..k] == w;
      TracksAccepts(inner.dfa, w, inner.current);
      accepted := InAccepting();
    }
  }

  // The automaton for an expression whose ranges are pairwise equal or without
  // common characters.
  method BuildRanges(r: Rex<SymblRange>) returns (a: RangeAutomata)
    requires Disjoint(Alphabet(r))
    ensures fresh(a) && fresh(a.inner) && a.Valid()
    ensures forall w :: CharRecognizes(a.inner.dfa, w) <==> Matches(r, w)
  {
    hide Matches, Spells, Denotes;
    var inner := Build(r);
    a := new RangeAutomata(inner);
    forall w ensures CharRecognizes(inner.dfa, w) <==> Matches(r, w) { ImplementsMatches(inner.dfa, r, w); }
  }
}
