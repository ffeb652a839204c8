// Expressions over symbols, the words they denote, and the automata built from them.
module Regex {
  import opened Dfa
  import opened DfaOps
  import opened Nfa
  import opened NfaLaws

  datatype Rex<S> =
    | One(symbol: S)
    | Word(symbols: seq<S>)
    | Either(left: Rex<S>, right: Rex<S>)
    | Seq(first: Rex<S>, second: Rex<S>)
    | Repeat(body: Rex<S>)
    | Any(body: Rex<S>)
    | Opt(body: Rex<S>)

  ghost predicate Denotes<S(!new)>(r: Rex<S>, w: seq<S>)
    decreases r
  {
    match r
    case One(s) => w == [s]
    case Word(ss) => w == ss
    case Either(a, b) => Denotes(a, w) || Denotes(b, w)
    case Seq(a, b) => exists u, v :: w == u + v && Denotes(a, u) && Denotes(b, v)
    case Repeat(a) => exists ws :: |ws| > 0 && Flatten(ws) == w && forall i :: 0 <= i < |ws| ==> Denotes(a, ws[i])
    case Any(a) => exists ws :: Flatten(ws) == w && forall i :: 0 <= i < |ws| ==> Denotes(a, ws[i])
    case Opt(a) => w == [] || Denotes(a, w)
  }

  function Alphabet<S>(r: Rex<S>): set<S> {
    match r
    case One(s) => {s}
    case Word(ss) => set s | s in ss
    case Either(a, b) => Alphabet(a) + Alphabet(b)
    case Seq(a, b) => Alphabet(a) + Alphabet(b)
    case Repeat(a) => Alphabet(a)
    case Any(a) => Alphabet(a)
    case Opt(a) => Alphabet(a)
  }

  // An automaton for what an expression denotes.
  ghost predicate Implements<S(!new)>(d: DFA<S>, r: Rex<S>) {
    && DfaOk(d) && Labels(d) <= Alphabet(r)
    && forall w :: Recognizes(d, w) <==> Denotes(r, w)
  }

  lemma {:induction false} LiftImplements<S(!new)>(d: DFA<S>, r: Rex<S>, w: seq<S>)
    requires Implements(d, r)
    ensures Accepts(Lift(d), w) <==> Denotes(r, w)
  {
    LiftLanguage(d, w);
  }

  lemma {:induction false} SeqImplements<S(!new)>(a: DFA<S>, r1: Rex<S>, b: DFA<S>, r2: Rex<S>, w: seq<S>)
    requires Implements(a, r1) && Implements(b, r2)
    ensures AcceptsBoth(Lift(a), Lift(b), w) <==> Denotes(Seq(r1, r2), w)
  {
    hide Implements, Accepts;
    forall u ensures Accepts(Lift(a), u) <==> Denotes(r1, u) { LiftImplements(a, r1, u); }
    forall u ensures Accepts(Lift(b), u) <==> Denotes(r2, u) { LiftImplements(b, r2, u); }
  }

  lemma {:induction false} ManyImplements<S(!new)>(a: DFA<S>, r: Rex<S>, w: seq<S>)
    requires Implements(a, r)
    ensures AcceptsSome(Lift(a), w) <==> Denotes(Repeat(r), w)
    ensures AcceptsMany(Lift(a), w) <==> Denotes(Any(r), w)
  {
    hide Implements, Accepts;
    forall ws: seq<seq<S>> ensures AllAccepted(Lift(a), ws) <==> (forall i :: 0 <= i < |ws| ==> Denotes(r, ws[i])) {
      forall i | 0 <= i < |ws| ensures Accepts(Lift(a), ws[i]) <==> Denotes(r, ws[i]) { LiftImplements(a, r, ws[i]); }
    }
  }

  method Build<S(==,!new)>(r: Rex<S>) returns (c: Automata<S>)
    ensures fresh(c) && c.current == c.dfa.initial && Implements(c.dfa, r)
    decreases r
  {
    hide Recognizes, DfaOk, Lift, AcceptsSome, AcceptsMany, AcceptsBoth;
    match r
    case One(s) =>
      c := new Automata(SymbolDfa(s));
      forall w { SymbolDfaOk(s, w); }
      SymbolDfaOk(s, []);
      assert forall q: nat :: q < 3 ==> SymbolDfa(s).trans[q].Keys <= {s};
    case Word(ss) =>
      var d := Chain(ss);
      c := new Automata(d);
      forall w { ChainDfaOk(ss, w); }
      ChainDfaOk(ss, []);
    case Either(a, b) =>
      var c1 := Build(a);
      var c2 := Build(b);
      c := Or(c1, c2);
    case Seq(a, b) =>
      var c1 := Build(a);
      var c2 := Build(b);
      c := Then(c1, c2);
      forall w { SeqImplements(c1.dfa, a, c2.dfa, b, w); }
    case Repeat(a) =>
      var c1 := Build(a);
      c := OneOrMore(c1);
      forall w { ManyImplements(c1.dfa, a, w); }
    case Any(a) =>
      var c1 := Build(a);
      c := AnyNumber(c1);
      forall w { ManyImplements(c1.dfa, a, w); }
    case Opt(a) =>
      var c1 := Build(a);
      c := Maybe(c1);
  }
}
