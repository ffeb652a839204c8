// Deterministic automata and their lift to nondeterministic ones.
module Dfa {
  import opened Nfa

  // A symbol without a transition leads to the sink.
  datatype DFA<S> = DFA(initial: nat, acceptings: set<nat>, sink: nat, trans: seq<map<S, nat>>)

  function Step<S>(d: DFA<S>, q: nat, s: S): nat {
    if q < |d.trans| && s in d.trans[q] then d.trans[q][s] else d.sink
  }

  function Run<S>(d: DFA<S>, q: nat, w: seq<S>): nat
    decreases w
  {
    if w == [] then q else Run(d, Step(d, q, w[0]), w[1..])
  }

  predicate Recognizes<S>(d: DFA<S>, w: seq<S>) {
    Run(d, d.initial, w) in d.acceptings
  }

  // Well formed, and no symbol leads back to the initial state.
  ghost predicate DfaOk<S(!new)>(d: DFA<S>) {
    && d.initial < |d.trans| && d.sink < |d.trans| && d.initial != d.sink
    && d.sink !in d.acceptings && (forall q :: q in d.acceptings ==> q < |d.trans|)
    && d.trans[d.sink] == map[]
    && forall q: nat, s :: q < |d.trans| && s in d.trans[q] ==> d.trans[q][s] < |d.trans| && d.trans[q][s] != d.initial
  }

  // The symbols that label transitions.
  ghost function Labels<S(!new)>(d: DFA<S>): set<S> {
    set q, s | 0 <= q < |d.trans| && s in d.trans[q] :: s
  }

  lemma {:induction false} RunAppend<S>(d: DFA<S>, q: nat, v: seq<S>, w: seq<S>)
    ensures Run(d, q, v + w) == Run(d, Run(d, q, v), w)
    decreases v
  {
    if v == [] {
      assert v + w == w;
    } else {
      assert (v + w)[1..] == v[1..] + w;
      RunAppend(d, Step(d, q, v[0]), v[1..], w);
    }
  }

  lemma {:induction false} RunFromSink<S(!new)>(d: DFA<S>, w: seq<S>)
    requires DfaOk(d)
    ensures Run(d, d.sink, w) == d.sink
    decreases w
  {
    if w != [] { RunFromSink(d, w[1..]); }
  }

  // The states a run goes through exist, and only the empty run ends in the initial state.
  lemma {:induction false} RunInRange<S(!new)>(d: DFA<S>, q: nat, w: seq<S>)
    requires DfaOk(d) && q < |d.trans|
    ensures Run(d, q, w) < |d.trans| && (w != [] ==> Run(d, q, w) != d.initial)
    decreases w
  {
    if w != [] { RunInRange(d, Step(d, q, w[0]), w[1..]); }
  }

  // ----- Lift -----

  function LiftRow<S>(row: map<S, nat>): map<S, set<nat>> {
    map s | s in row :: {row[s]}
  }

  function Lift<S>(d: DFA<S>): NFA<S> {
    NFA({d.initial}, d.acceptings, d.sink,
      seq(|d.trans|, q requires 0 <= q < |d.trans| => LiftRow(d.trans[q])), seq(|d.trans|, q => {}))
  }

  method LiftAutomata<S(==,!new)>(d: DFA<S>) returns (n: NFA<S>)
    ensures n == Lift(d)
  {
    var trans: seq<map<S, set<nat>>>, eps: seq<set<nat>> := [], [];
    var q := 0;
    while q < |d.trans|
      invariant q <= |d.trans| && |trans| == |eps| == q
      invariant forall k :: 0 <= k < q ==> trans[k] == LiftRow(d.trans[k]) && eps[k] == {}
    {
      var row, rest := map[], d.trans[q].Keys;
      while rest != {}
        invariant rest <= d.trans[q].Keys && row.Keys == d.trans[q].Keys - rest
        invariant forall s :: s in row ==> row[s] == {d.trans[q][s]}
        decreases rest
      {
        var s :| s in rest;
        row := row[s := {d.trans[q][s]}];
        rest := rest - {s};
      }
      trans, eps := trans + [row], eps + [{}];
      q := q + 1;
    }
    n := NFA({d.initial}, d.acceptings, d.sink, trans, eps);
  }

  lemma LiftEdges<S(!new)>(d: DFA<S>, q: nat, s: S, t: nat)
    ensures SymEdge(Lift(d), q, s, t) <==> q < |d.trans| && s in d.trans[q] && d.trans[q][s] == t
    ensures !EpsEdge(Lift(d), q, t)
  {
  }

  lemma LiftNoEps<S(!new)>(d: DFA<S>, q: nat, t: nat)
    ensures !EpsEdge(Lift(d), q, t)
  {
  }

  lemma LiftOk<S(!new)>(d: DFA<S>)
    requires DfaOk(d)
    ensures Ok(Lift(d))
    ensures forall q: nat, s, t: nat :: SymEdge(Lift(d), q, s, t) ==> t != d.initial
  {
    forall q: nat, t: nat ensures !EpsEdge(Lift(d), q, t) { LiftNoEps(d, q, t); }
    forall q: nat, s, t: nat | SymEdge(Lift(d), q, s, t) ensures t < |d.trans| && t != d.initial { LiftEdges(d, q, s, t); }
    assert Lift(d).trans[d.sink] == map[];
  }

  lemma LiftSymbols<S(!new)>(d: DFA<S>)
    ensures Symbols(Lift(d)) == Labels(d)
  {
    forall s ensures s in Symbols(Lift(d)) <==> s in Labels(d) {
      if s in Symbols(Lift(d)) {
        var q :| 0 <= q < |d.trans| && s in Lift(d).trans[q];
        assert s in d.trans[q];
      }
      if s in Labels(d) {
        var q :| 0 <= q < |d.trans| && s in d.trans[q];
        assert s in Lift(d).trans[q];
      }
    }
  }

  lemma {:induction false} LiftPath<S(!new)>(d: DFA<S>, q: nat, p: Path<S>)
    requires DfaOk(d) && Follows(Lift(d), q, p)
    ensures End(q, p) == Run(d, q, Word(p))
    decreases p
  {
    hide Lift, DfaOk;
    match p
    case Stop =>
    case Eps(t, r) => LiftNoEps(d, q, t);
    case Read(s, t, r) =>
      LiftEdges(d, q, s, t);
      LiftPath(d, t, r);
      assert ([s] + Word(r))[1..] == Word(r);
  }

  lemma {:induction false} LiftRun<S(!new)>(d: DFA<S>, q: nat, w: seq<S>)
    requires DfaOk(d) && q < |d.trans| && Run(d, q, w) != d.sink
    ensures Reads(Lift(d), q, w, Run(d, q, w))
    decreases w
  {
    hide Lift;
    if w == [] {
      ReadsNothing(Lift(d), q);
    } else {
      var t := Step(d, q, w[0]);
      if w[0] !in d.trans[q] { RunFromSink(d, w[1..]); }
      LiftRun(d, t, w[1..]);
      LiftEdges(d, q, w[0], t);
      ReadsSym(Lift(d), q, w[0], t, w[1..], Run(d, q, w));
      assert [w[0]] + w[1..] == w;
    }
  }

  lemma LiftLanguage<S(!new)>(d: DFA<S>, w: seq<S>)
    requires DfaOk(d)
    ensures Accepts(Lift(d), w) <==> Recognizes(d, w)
  {
    if Accepts(Lift(d), w) {
      var q, t :| q in Lift(d).initials && t in Lift(d).acceptings && Reads(Lift(d), q, w, t);
      var p :| Follows(Lift(d), q, p) && Word(p) == w && End(q, p) == t;
      LiftPath(d, q, p);
    }
    if Recognizes(d, w) { LiftRun(d, d.initial, w); }
  }

  // ----- Constructors -----

  // One symbol.
  function SymbolDfa<S>(s: S): DFA<S> {
    DFA(0, {1}, 2, [map[s := 1], map[], map[]])
  }

  lemma SymbolDfaOk<S(!new)>(s: S, w: seq<S>)
    ensures DfaOk(SymbolDfa(s)) && (Recognizes(SymbolDfa(s), w) <==> w == [s])
  {
    var d := SymbolDfa(s);
    assert DfaOk(d);
    if w != [] && w[0] == s {
      assert Step(d, 0, s) == 1;
      assert Run(d, 0, w) == Run(d, 1, w[1..]);
      if |w| > 1 {
        assert Step(d, 1, w[1]) == 2;
        RunFromSink(d, w[2..]);
        assert w[1..][0] == w[1] && w[1..][1..] == w[2..];
        assert Run(d, 1, w[1..]) == Run(d, 2, w[2..]);
      } else {
        assert w == [s];
      }
    } else if w != [] {
      RunFromSink(d, w[1..]);
    }
  }

  // A word, symbol by symbol.
  function ChainDfa<S>(word: seq<S>): DFA<S> {
    DFA(0, {|word|}, |word| + 1, seq(|word| + 2, i requires 0 <= i < |word| + 2 => if i < |word| then map[word[i] := i + 1] else map[]))
  }

  method Chain<S(==,!new)>(word: seq<S>) returns (d: DFA<S>)
    ensures d == ChainDfa(word)
  {
    var trans: seq<map<S, nat>> := [];
    var state: nat := 0;
    while state < |word|
      invariant state <= |word| && |trans| == state
      invariant forall i :: 0 <= i < state ==> trans[i] == map[word[i] := i + 1]
    {
      trans := trans + [map[word[state] := state + 1]];
      state := state + 1;
    }
    trans := trans + [map[]] + [map[]];
    d := DFA(0, {state}, state + 1, trans);
  }

  lemma {:induction false} ChainRun<S(!new)>(word: seq<S>, i: nat, w: seq<S>)
    requires i <= |word| && DfaOk(ChainDfa(word))
    ensures Run(ChainDfa(word), i, w) == |word| <==> w == word[i..]
    decreases w
  {
    var d := ChainDfa(word);
    if w != [] {
      if i < |word| && w[0] == word[i] {
        ChainRun(word, i + 1, w[1..]);
        assert word[i..] == [word[i]] + word[i + 1..];
        assert w == [w[0]] + w[1..];
      } else {
        assert Step(d, i, w[0]) == d.sink;
        RunFromSink(d, w[1..]);
      }
    }
  }

  lemma ChainDfaOk<S(!new)>(word: seq<S>, w: seq<S>)
    ensures DfaOk(ChainDfa(word)) && (Recognizes(ChainDfa(word), w) <==> w == word)
  {
    assert DfaOk(ChainDfa(word));
    ChainRun(word, 0, w);
    assert word[0..] == word;
  }

  // ----- The automaton object -----

  class Automata<S(==,!new)> {
    const dfa: DFA<S>
    var current: nat

    constructor (dfa: DFA<S>)
      ensures this.dfa == dfa && current == dfa.initial
    {
      this.dfa, this.current := dfa, dfa.initial;
    }

    method Reset()
      modifies this
      ensures current == dfa.initial
    {
      current := dfa.initial;
    }

    predicate InAccepting()
      reads this
    {
      current in dfa.acceptings
    }

    method ForceState(q: nat)
      requires q < |dfa.trans|
      modifies this
      ensures current == q
    {
      current := q;
    }

    method Process(s: S)
      requires DfaOk(dfa) && current < |dfa.trans|
      modifies this
      ensures current == Step(dfa, old(current), s) && current < |dfa.trans|
    {
      var row := dfa.trans[current];
      current := if s in row then row[s] else dfa.sink;
    }

    // From the initial state: accepts afterwards exactly the words of the automaton.
    method ProcessAll(w: seq<S>)
      requires DfaOk(dfa) && current < |dfa.trans|
      modifies this
      ensures current == Run(dfa, old(current), w) && current < |dfa.trans|
      ensures old(current) == dfa.initial ==> (InAccepting() <==> Recognizes(dfa, w))
    {
      var k := 0;
      while k < |w|
        invariant k <= |w| && current < |dfa.trans|
        invariant current == Run(dfa, old(current), w[..k])
      {
        Process(w[k]);
        RunAppend(dfa, old(current), w[..k], [w[k]]);
        assert w[..k + 1] == w[..k] + [w[k]];
        k := k + 1;
      }
      assert w[..k] == w;
    }
  }
}
