// Nondeterministic automata with epsilon moves, and their language.
module Nfa {
  // State i has the transitions trans[i] and the epsilon moves eps[i].
  datatype NFA<S> = NFA(
    initials: set<nat>,
    acceptings: set<nat>,
    sink: nat,
    trans: seq<map<S, set<nat>>>,
    eps: seq<set<nat>>)

  ghost predicate EpsEdge<S>(n: NFA<S>, q: nat, t: nat) {
    q < |n.eps| && t in n.eps[q]
  }

  ghost predicate SymEdge<S>(n: NFA<S>, q: nat, s: S, t: nat) {
    q < |n.trans| && s in n.trans[q] && t in n.trans[q][s]
  }

  // Indices in range; the sink is a dead end that is neither initial nor
  // accepting; there is an initial state; every transition leads somewhere.
  ghost predicate Ok<S(!new)>(n: NFA<S>) {
    && |n.trans| == |n.eps| && n.sink < |n.trans|
    && n.initials != {} && n.sink !in n.initials && n.sink !in n.acceptings
    && (forall q :: q in n.initials || q in n.acceptings ==> q < |n.trans|)
    && (forall q: nat, t: nat :: EpsEdge(n, q, t) ==> t < |n.trans|)
    && (forall q: nat, s, t: nat :: SymEdge(n, q, s, t) ==> t < |n.trans|)
    && (forall q, s :: 0 <= q < |n.trans| && s in n.trans[q] ==> n.trans[q][s] != {})
    && n.trans[n.sink] == map[] && n.eps[n.sink] == {}
  }

  // The symbols that label transitions.
  ghost function Symbols<S(!new)>(n: NFA<S>): set<S> {
    set q, s | 0 <= q < |n.trans| && s in n.trans[q] :: s
  }

  // ----- Paths -----

  datatype Path<S> = Stop | Eps(to: nat, rest: Path<S>) | Read(sym: S, to: nat, rest: Path<S>)

  ghost predicate Follows<S>(n: NFA<S>, q: nat, p: Path<S>)
    decreases p
  {
    match p
    case Stop => true
    case Eps(t, r) => EpsEdge(n, q, t) && Follows(n, t, r)
    case Read(s, t, r) => SymEdge(n, q, s, t) && Follows(n, t, r)
  }

  function Word<S>(p: Path<S>): seq<S> {
    match p
    case Stop => []
    case Eps(_, r) => Word(r)
    case Read(s, _, r) => [s] + Word(r)
  }

  function End<S>(q: nat, p: Path<S>): nat
    decreases p
  {
    match p
    case Stop => q
    case Eps(t, r) => End(t, r)
    case Read(_, t, r) => End(t, r)
  }

  function Join<S>(p: Path<S>, r: Path<S>): Path<S> {
    match p
    case Stop => r
    case Eps(t, p1) => Eps(t, Join(p1, r))
    case Read(s, t, p1) => Read(s, t, Join(p1, r))
  }

  lemma {:induction false} JoinFollows<S>(n: NFA<S>, q: nat, p: Path<S>, r: Path<S>)
    requires Follows(n, q, p) && Follows(n, End(q, p), r)
    ensures Follows(n, q, Join(p, r)) && Word(Join(p, r)) == Word(p) + Word(r) && End(q, Join(p, r)) == End(End(q, p), r)
    decreases p
  {
    match p
    case Stop =>
    case Eps(t, p1) => JoinFollows(n, t, p1, r);
    case Read(s, t, p1) => JoinFollows(n, t, p1, r);
  }

  // Some path from q to t reads w.
  ghost predicate Reads<S(!new)>(n: NFA<S>, q: nat, w: seq<S>, t: nat) {
    exists p :: Follows(n, q, p) && Word(p) == w && End(q, p) == t
  }

  ghost predicate Accepts<S(!new)>(n: NFA<S>, w: seq<S>) {
    exists q, t :: q in n.initials && t in n.acceptings && Reads(n, q, w, t)
  }

  lemma ReadsNothing<S(!new)>(n: NFA<S>, q: nat)
    ensures Reads(n, q, [], q)
  {
    var p: Path<S> := Stop;
    assert Follows(n, q, p) && Word(p) == [] && End(q, p) == q;
  }

  lemma ReadsEps<S(!new)>(n: NFA<S>, q: nat, t: nat, w: seq<S>, u: nat)
    requires EpsEdge(n, q, t) && Reads(n, t, w, u)
    ensures Reads(n, q, w, u)
  {
    var p :| Follows(n, t, p) && Word(p) == w && End(t, p) == u;
    var e := Eps(t, p);
    assert Follows(n, q, e) && Word(e) == w && End(q, e) == u;
  }

  lemma ReadsSym<S(!new)>(n: NFA<S>, q: nat, s: S, t: nat, w: seq<S>, u: nat)
    requires SymEdge(n, q, s, t) && Reads(n, t, w, u)
    ensures Reads(n, q, [s] + w, u)
  {
    var p :| Follows(n, t, p) && Word(p) == w && End(t, p) == u;
    var r := Read(s, t, p);
    assert Follows(n, q, r) && Word(r) == [s] + w && End(q, r) == u;
  }

  lemma ReadsJoin<S(!new)>(n: NFA<S>, q: nat, v: seq<S>, t: nat, w: seq<S>, u: nat)
    requires Reads(n, q, v, t) && Reads(n, t, w, u)
    ensures Reads(n, q, v + w, u)
  {
    var p :| Follows(n, q, p) && Word(p) == v && End(q, p) == t;
    var r :| Follows(n, t, r) && Word(r) == w && End(t, r) == u;
    JoinFollows(n, q, p, r);
  }

  // Nothing leaves a dead end.
  lemma {:induction false} SinkStays<S(!new)>(n: NFA<S>, p: Path<S>)
    requires Ok(n) && Follows(n, n.sink, p)
    ensures p == Stop
  {
  }

  // ----- Iterated words -----

  function Flatten<S>(ws: seq<seq<S>>): seq<S> {
    if ws == [] then [] else ws[0] + Flatten(ws[1..])
  }

  ghost predicate AllAccepted<S(!new)>(n: NFA<S>, ws: seq<seq<S>>) {
    forall i :: 0 <= i < |ws| ==> Accepts(n, ws[i])
  }

  // w is one or more accepted words in a row.
  ghost predicate AcceptsSome<S(!new)>(n: NFA<S>, w: seq<S>) {
    exists ws :: |ws| > 0 && AllAccepted(n, ws) && Flatten(ws) == w
  }

  // w is any number of accepted words in a row.
  ghost predicate AcceptsMany<S(!new)>(n: NFA<S>, w: seq<S>) {
    exists ws :: AllAccepted(n, ws) && Flatten(ws) == w
  }

  lemma ManyIsSomeOrNothing<S(!new)>(n: NFA<S>, w: seq<S>)
    ensures AcceptsMany(n, w) <==> w == [] || AcceptsSome(n, w)
  {
    if w == [] {
      assert AllAccepted(n, []) && Flatten<S>([]) == [];
    }
    if ws :| AllAccepted(n, ws) && Flatten(ws) == w {
      if ws == [] { assert w == []; }
    }
  }
}
