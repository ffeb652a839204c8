// From nondeterministic to deterministic: epsilon closures and the subset construction.
module Subset {
  import opened Dfa
  import opened Nfa

  // ----- Epsilon closure -----

  // t is reached from some state of qs without reading.
  ghost predicate ReachedFrom<S(!new)>(n: NFA<S>, qs: set<nat>, t: nat) {
    exists q :: q in qs && Reads(n, q, [], t)
  }

  ghost predicate IsClosure<S(!new)>(n: NFA<S>, qs: set<nat>, closure: set<nat>) {
    forall t: nat :: t in closure <==> ReachedFrom(n, qs, t)
  }

  // Nothing leads out of the set without reading.
  ghost predicate Closed<S(!new)>(n: NFA<S>, qs: set<nat>) {
    forall q: nat, t: nat :: q in qs && EpsEdge(n, q, t) ==> t in qs
  }

  lemma {:induction false} ClosedStays<S(!new)>(n: NFA<S>, qs: set<nat>, q: nat, p: Path<S>)
    requires Closed(n, qs) && q in qs && Follows(n, q, p) && Word(p) == []
    ensures End(q, p) in qs
    decreases p
  {
    match p
    case Stop =>
    case Eps(t, r) => ClosedStays(n, qs, t, r);
    case Read(s, t, r) => assert false;
  }

  lemma ClosedHasReached<S(!new)>(n: NFA<S>, qs: set<nat>, t: nat)
    requires Closed(n, qs) && ReachedFrom(n, qs, t)
    ensures t in qs
  {
    var q :| q in qs && Reads(n, q, [], t);
    var p :| Follows(n, q, p) && Word(p) == [] && End(q, p) == t;
    ClosedStays(n, qs, q, p);
  }

  lemma ReachedThenEps<S(!new)>(n: NFA<S>, qs: set<nat>, q: nat, t: nat)
    requires ReachedFrom(n, qs, q) && EpsEdge(n, q, t)
    ensures ReachedFrom(n, qs, t)
  {
    var q0 :| q0 in qs && Reads(n, q0, [], q);
    ReadsNothing(n, t);
    ReadsEps(n, q, t, [], t);
    ReadsJoin(n, q0, [], q, [], t);
  }

  lemma ReachedSelf<S(!new)>(n: NFA<S>, qs: set<nat>, q: nat)
    requires q in qs
    ensures ReachedFrom(n, qs, q)
  {
    ReadsNothing(n, q);
  }

  lemma ClosureIsClosed<S(!new)>(n: NFA<S>, qs: set<nat>, closure: set<nat>)
    requires IsClosure(n, qs, closure)
    ensures Closed(n, closure) && qs <= closure
  {
    hide ReachedFrom;
    forall q: nat, t: nat | q in closure && EpsEdge(n, q, t) ensures t in closure { ReachedThenEps(n, qs, q, t); }
    forall q | q in qs ensures q in closure { ReachedSelf(n, qs, q); }
  }

  // A closed set of states reached from qs that contains qs is the closure.
  lemma ClosedIsClosure<S(!new)>(n: NFA<S>, qs: set<nat>, closure: set<nat>)
    requires qs <= closure && Closed(n, closure) && forall t :: t in closure ==> ReachedFrom(n, qs, t)
    ensures IsClosure(n, qs, closure)
  {
    forall t: nat | ReachedFrom(n, qs, t) ensures t in closure {
      var q :| q in qs && Reads(n, q, [], t);
      assert ReachedFrom(n, closure, t);
      ClosedHasReached(n, closure, t);
    }
  }

  ghost predicate StatesOf<S(!new)>(n: NFA<S>, qs: set<nat>) {
    forall q :: q in qs ==> q < |n.trans|
  }

  ghost function Below(k: nat): (s: set<nat>)
    ensures forall x: nat :: x in s <==> x < k
  {
    if k == 0 then {} else Below(k - 1) + {k - 1}
  }

  // The states reached from q by one epsilon move or more.
  method SimpleClosure<S(==,!new)>(n: NFA<S>, q: nat) returns (closure: set<nat>)
    requires Ok(n) && q < |n.trans|
    ensures StatesOf(n, closure) && n.eps[q] <= closure && Closed(n, closure)
    ensures forall t :: t in closure ==> ReachedFrom(n, {q}, t)
  {
    hide ReachedFrom, Ok;
    Sizes(n);
    closure := n.eps[q];
    var worklist := ListOf(closure);
    forall t | t in closure ensures t < |n.trans| && ReachedFrom(n, {q}, t) {
      EpsTarget(n, q, t);
      ReachedSelf(n, {q}, q);
      ReachedThenEps(n, {q}, q, t);
    }
    while worklist != []
      invariant n.eps[q] <= closure && StatesOf(n, closure)
      invariant forall t :: t in closure ==> ReachedFrom(n, {q}, t)
      invariant forall t :: t in worklist ==> t in closure
      invariant forall t, u: nat :: t in closure && t !in worklist && EpsEdge(n, t, u) ==> u in closure
      decreases Below(|n.trans|) - closure, |worklist|
    {
      var s := worklist[|worklist| - 1];
      assert s in worklist && s in closure;
      ghost var before, list := closure, worklist;
      worklist := worklist[..|worklist| - 1];
      assert list == worklist + [s];
      var added;
      closure, added := AddAll(closure, n.eps[s]);
      worklist := worklist + added;
      forall t | t in closure ensures t < |n.trans| && ReachedFrom(n, {q}, t) {
        if t !in before {
          EpsTarget(n, s, t);
          ReachedThenEps(n, {q}, s, t);
        }
      }
      assert added != [] ==> added[0] in closure && added[0] !in before;
    }
  }

  lemma Sizes<S(!new)>(n: NFA<S>)
    requires Ok(n)
    ensures |n.eps| == |n.trans|
  {
  }

  lemma EpsTarget<S(!new)>(n: NFA<S>, q: nat, t: nat)
    requires Ok(n) && q < |n.eps| && t in n.eps[q]
    ensures EpsEdge(n, q, t) && t < |n.trans|
  {
    assert EpsEdge(n, q, t);
  }

  // Adds what is not there yet; lists what was added.
  method AddAll(closure0: set<nat>, more: set<nat>) returns (closure: set<nat>, added: seq<nat>)
    ensures closure == closure0 + more
    ensures forall t :: t in added <==> t in more && t !in closure0
  {
    closure, added := closure0, [];
    var rest := more;
    while rest != {}
      invariant rest <= more && closure == closure0 + (more - rest)
      invariant forall t :: t in added <==> t in more - rest && t !in closure0
      decreases rest
    {
      var t :| t in rest;
      if t !in closure {
        closure, added := closure + {t}, added + [t];
      }
      rest := rest - {t};
    }
  }

  method ListOf(s: set<nat>) returns (xs: seq<nat>)
    ensures forall x :: x in xs <==> x in s
  {
    xs := [];
    var rest := s;
    while rest != {}
      invariant rest <= s && forall x :: x in xs <==> x in s - rest
      decreases rest
    {
      var x :| x in rest;
      xs := xs + [x];
      rest := rest - {x};
    }
  }

  method Closure<S(==,!new)>(n: NFA<S>, qs: set<nat>) returns (closure: set<nat>)
    requires Ok(n) && StatesOf(n, qs)
    ensures IsClosure(n, qs, closure) && StatesOf(n, closure)
  {
    hide ReachedFrom, Ok;
    Sizes(n);
    closure := qs;
    forall t | t in qs ensures ReachedFrom(n, qs, t) { ReachedSelf(n, qs, t); }
    var rest := qs;
    while rest != {}
      invariant rest <= qs && qs <= closure && StatesOf(n, closure)
      invariant forall t :: t in closure ==> ReachedFrom(n, qs, t)
      invariant forall t: nat, u: nat :: t in closure && t !in rest && EpsEdge(n, t, u) ==> u in closure
      decreases rest
    {
      var q :| q in rest;
      var sub := SimpleClosure(n, q);
      forall t | t in sub ensures ReachedFrom(n, qs, t) { ReachedMore(n, q, qs, t); }
      ghost var before := closure;
      closure := closure + sub;
      rest := rest - {q};
      forall t: nat, u: nat | t in closure && t !in rest && EpsEdge(n, t, u) ensures u in closure {
        assert t == q ==> u in n.eps[q];
      }
    }
    ClosedIsClosure(n, qs, closure);
  }

  lemma ReachedMore<S(!new)>(n: NFA<S>, q: nat, qs: set<nat>, t: nat)
    requires q in qs && ReachedFrom(n, {q}, t)
    ensures ReachedFrom(n, qs, t)
  {
  }

  // ----- Sets of states as states -----

  // Some state of qs goes to t on s.
  ghost predicate OnSymbol<S(!new)>(n: NFA<S>, qs: set<nat>, s: S, t: nat) {
    exists q :: q in qs && SymEdge(n, q, s, t)
  }

  ghost predicate HasSymbol<S(!new)>(n: NFA<S>, qs: set<nat>, s: S) {
    exists q :: q in qs && q < |n.trans| && s in n.trans[q]
  }

  // Where qs goes on each symbol, before closing.
  ghost predicate IsRaw<S(!new)>(n: NFA<S>, qs: set<nat>, buffer: map<S, set<nat>>) {
    && (forall s :: s in buffer <==> HasSymbol(n, qs, s))
    && forall s, t: nat :: s in buffer ==> (t in buffer[s] <==> OnSymbol(n, qs, s, t))
  }

  // The row of qs: on each symbol, all states reached by it and epsilon moves after it.
  ghost predicate IsRow<S(!new)>(n: NFA<S>, qs: set<nat>, row: map<S, set<nat>>) {
    && (forall s :: s in row <==> HasSymbol(n, qs, s))
    && forall s, t: nat :: s in row ==> (t in row[s] <==> AfterSymbol(n, qs, s, t))
  }

  ghost predicate AfterSymbol<S(!new)>(n: NFA<S>, qs: set<nat>, s: S, t: nat) {
    exists u :: OnSymbol(n, qs, s, u) && Reads(n, u, [], t)
  }

  method Collect<S(==,!new)>(n: NFA<S>, qs: set<nat>) returns (buffer: map<S, set<nat>>)
    requires StatesOf(n, qs)
    ensures IsRaw(n, qs, buffer)
  {
    buffer := map[];
    var rest := qs;
    while rest != {}
      invariant rest <= qs && IsRaw(n, qs - rest, buffer)
      decreases rest
    {
      var q :| q in rest;
      ghost var before := buffer;
      buffer := MergeRow(buffer, n.trans[q]);
      RawMore(n, qs - rest, q, before, buffer);
      assert qs - (rest - {q}) == (qs - rest) + {q};
      rest := rest - {q};
    }
    assert qs - rest == qs;
  }

  method MergeRow<S(==,!new)>(buffer0: map<S, set<nat>>, row: map<S, set<nat>>) returns (buffer: map<S, set<nat>>)
    ensures buffer.Keys == buffer0.Keys + row.Keys
    ensures forall s :: s in buffer ==>
      buffer[s] == (if s in buffer0 then buffer0[s] else {}) + (if s in row then row[s] else {})
  {
    buffer := buffer0;
    var rest := row.Keys;
    while rest != {}
      invariant rest <= row.Keys && buffer.Keys == buffer0.Keys + (row.Keys - rest)
      invariant forall s :: s in buffer ==>
        buffer[s] == (if s in buffer0 then buffer0[s] else {}) + (if s in row && s !in rest then row[s] else {})
      decreases rest
    {
      var s :| s in rest;
      buffer := buffer[s := (if s in buffer then buffer[s] else {}) + row[s]];
      rest := rest - {s};
    }
  }

  lemma RawMore<S(!new)>(n: NFA<S>, qs: set<nat>, q: nat, before: map<S, set<nat>>, buffer: map<S, set<nat>>)
    requires IsRaw(n, qs, before) && q < |n.trans|
    requires buffer.Keys == before.Keys + n.trans[q].Keys
    requires forall s :: s in buffer ==>
      buffer[s] == (if s in before then before[s] else {}) + (if s in n.trans[q] then n.trans[q][s] else {})
    ensures IsRaw(n, qs + {q}, buffer)
  {
    forall s ensures HasSymbol(n, qs + {q}, s) <==> HasSymbol(n, qs, s) || s in n.trans[q] {}
    forall s, t: nat ensures OnSymbol(n, qs + {q}, s, t) <==> OnSymbol(n, qs, s, t) || SymEdge(n, q, s, t) {}
    forall s, t: nat | s in buffer ensures t in buffer[s] <==> OnSymbol(n, qs + {q}, s, t) {
      if !HasSymbol(n, qs, s) { NotOn(n, qs, s, t); }
    }
  }

  lemma NotOn<S(!new)>(n: NFA<S>, qs: set<nat>, s: S, t: nat)
    requires !HasSymbol(n, qs, s)
    ensures !OnSymbol(n, qs, s, t)
  {
  }

  method CloseRow<S(==,!new)>(n: NFA<S>, qs: set<nat>, buffer: map<S, set<nat>>) returns (row: map<S, set<nat>>)
    requires Ok(n) && StatesOf(n, qs) && IsRaw(n, qs, buffer)
    ensures IsRow(n, qs, row) && forall s :: s in row ==> StatesOf(n, row[s]) && Closed(n, row[s])
  {
    hide Ok, ReachedFrom, AfterSymbol, HasSymbol, OnSymbol;
    row := map[];
    var rest := buffer.Keys;
    while rest != {}
      invariant rest <= buffer.Keys && row.Keys == buffer.Keys - rest
      invariant forall s :: s in row ==> IsClosure(n, buffer[s], row[s]) && StatesOf(n, row[s])
      decreases rest
    {
      var s :| s in rest;
      RawStates(n, qs, buffer, s);
      var closure := Closure(n, buffer[s]);
      row := row[s := closure];
      rest := rest - {s};
    }
    forall s, t: nat | s in row ensures t in row[s] <==> AfterSymbol(n, qs, s, t) {
      AfterIsClosure(n, qs, buffer, s, row[s], t);
    }
    forall s | s in row ensures Closed(n, row[s]) { ClosureIsClosed(n, buffer[s], row[s]); }
  }

  lemma RawStates<S(!new)>(n: NFA<S>, qs: set<nat>, buffer: map<S, set<nat>>, s: S)
    requires Ok(n) && IsRaw(n, qs, buffer) && s in buffer
    ensures StatesOf(n, buffer[s])
  {
    forall t | t in buffer[s] ensures t < |n.trans| {
      var q :| q in qs && SymEdge(n, q, s, t);
    }
  }

  lemma AfterIsClosure<S(!new)>(n: NFA<S>, qs: set<nat>, buffer: map<S, set<nat>>, s: S, closure: set<nat>, t: nat)
    requires IsRaw(n, qs, buffer) && s in buffer && IsClosure(n, buffer[s], closure)
    ensures t in closure <==> AfterSymbol(n, qs, s, t)
  {
    if AfterSymbol(n, qs, s, t) {
      var u :| OnSymbol(n, qs, s, u) && Reads(n, u, [], t);
      assert ReachedFrom(n, buffer[s], t);
    }
    if ReachedFrom(n, buffer[s], t) {
      var u :| u in buffer[s] && Reads(n, u, [], t);
      assert OnSymbol(n, qs, s, u);
    }
  }

  // ----- The construction -----

  type Table<S> = map<set<nat>, map<S, set<nat>>>

  // All states reached by reading w.
  ghost predicate IsReached<S(!new)>(n: NFA<S>, w: seq<S>, qs: set<nat>) {
    forall t: nat :: t in qs <==> exists q :: q in n.initials && Reads(n, q, w, t)
  }

  ghost predicate Reachable<S(!new)>(n: NFA<S>, qs: set<nat>) {
    exists w: seq<S> :: IsReached(n, w, qs)
  }

  // Every key is a closed set of states that some word reaches, with its row.
  ghost predicate TableOk<S(!new)>(n: NFA<S>, table: Table<S>) {
    forall qs :: qs in table ==> EntryOk(n, qs, table[qs])
  }

  ghost predicate EntryOk<S(!new)>(n: NFA<S>, qs: set<nat>, row: map<S, set<nat>>) {
    SetOk(n, qs) && IsRow(n, qs, row)
  }

  ghost predicate SetOk<S(!new)>(n: NFA<S>, qs: set<nat>) {
    StatesOf(n, qs) && Closed(n, qs) && Reachable(n, qs) && qs != {}
  }

  // What rows lead to is a key, or still to do.
  ghost predicate Pending<S(!new)>(table: Table<S>, todo: seq<set<nat>>) {
    forall qs, s :: qs in table && s in table[qs] ==> table[qs][s] in table || table[qs][s] in todo
  }

  ghost function Subsets(all: set<nat>): set<set<nat>> {
    set qs | qs <= all
  }

  method Explore<S(==,!new)>(n: NFA<S>, initial: set<nat>) returns (table: Table<S>)
    requires Ok(n) && SetOk(n, initial)
    ensures TableOk(n, table) && initial in table && Pending(table, [])
  {
    hide Ok, SetOk, IsRow;
    table := map[];
    var stack := [initial];
    while stack != []
      invariant TableOk(n, table) && Pending(table, stack)
      invariant forall qs :: qs in stack ==> SetOk(n, qs)
      invariant initial in table || initial in stack
      decreases Subsets(Below(|n.trans|)) - table.Keys, |stack|
    {
      var qs := stack[|stack| - 1];
      ghost var before := stack;
      stack := stack[..|stack| - 1];
      assert before == stack + [qs];
      assert SetOk(n, qs);
      if qs !in table {
        assert StatesOf(n, qs) by { SetParts(n, qs); }
        var buffer := Collect(n, qs);
        var row := CloseRow(n, qs, buffer);
        var more := NewTargets(row, table.Keys + {qs});
        forall s | s in row ensures SetOk(n, row[s]) { RowReachable(n, qs, row, s); }
        assert qs in Subsets(Below(|n.trans|)) by { SubsetOf(n, qs); }
        stack := stack + more;
        ghost var keys := table.Keys;
        table := table[qs := row];
        assert table.Keys == keys + {qs} && qs in Subsets(Below(|n.trans|)) - keys;
      }
    }
  }

  lemma SetParts<S(!new)>(n: NFA<S>, qs: set<nat>)
    requires SetOk(n, qs)
    ensures StatesOf(n, qs) && Closed(n, qs) && Reachable(n, qs)
  {
  }

  lemma SubsetOf<S(!new)>(n: NFA<S>, qs: set<nat>)
    requires StatesOf(n, qs)
    ensures qs in Subsets(Below(|n.trans|))
  {
  }

  // The sets a row leads to that have not been looked at.
  method NewTargets<S(==,!new)>(row: map<S, set<nat>>, known: set<set<nat>>) returns (more: seq<set<nat>>)
    ensures forall qs :: qs in more ==> exists s :: s in row && row[s] == qs
    ensures forall s :: s in row ==> row[s] in known || row[s] in more
  {
    more := [];
    var rest := row.Keys;
    while rest != {}
      invariant rest <= row.Keys
      invariant forall qs :: qs in more ==> exists s :: s in row && row[s] == qs
      invariant forall s :: s in row && s !in rest ==> row[s] in known || row[s] in more
      decreases rest
    {
      var s :| s in rest;
      if row[s] !in known {
        more := more + [row[s]];
      }
      rest := rest - {s};
    }
  }

  // A path that reads s last goes over an edge for s after the rest.
  lemma {:induction false} SplitFirst<S(!new)>(n: NFA<S>, q: nat, p: Path<S>) returns (u: nat, t: nat, r: Path<S>)
    requires Follows(n, q, p) && Word(p) != []
    ensures Reads(n, q, [], u) && SymEdge(n, u, Word(p)[0], t) && Follows(n, t, r) && End(t, r) == End(q, p) && Word(r) == Word(p)[1..]
    decreases p
  {
    match p
    case Stop => assert false;
    case Eps(k, p1) =>
      u, t, r := SplitFirst(n, k, p1);
      ReadsEps(n, q, k, [], u);
    case Read(s, k, p1) =>
      u, t, r := q, k, p1;
      ReadsNothing(n, q);
      assert ([s] + Word(p1))[1..] == Word(p1);
  }

  lemma {:induction false} SplitLast<S(!new)>(n: NFA<S>, q: nat, p: Path<S>, w: seq<S>, s: S) returns (u: nat, t: nat)
    requires Follows(n, q, p) && Word(p) == w + [s]
    ensures Reads(n, q, w, u) && SymEdge(n, u, s, t) && Reads(n, t, [], End(q, p))
    decreases p
  {
    match p
    case Stop => assert false;
    case Eps(k, p1) =>
      u, t := SplitLast(n, k, p1, w, s);
      ReadsEps(n, q, k, w, u);
    case Read(x, k, p1) =>
      if w == [] {
        assert Word(p) == [s] && Word(p)[0] == x;
        u, t := q, k;
        ReadsNothing(n, q);
        assert Word(p1) == [];
      } else {
        assert x == w[0] && Word(p1) == w[1..] + [s] by { assert (w + [s])[0] == w[0] && (w + [s])[1..] == w[1..] + [s]; }
        u, t := SplitLast(n, k, p1, w[1..], s);
        ReadsSym(n, q, x, k, w[1..], u);
        assert [x] + w[1..] == w;
      }
  }

  // Reading one symbol more.
  lemma RowReached<S(!new)>(n: NFA<S>, qs: set<nat>, row: map<S, set<nat>>, w: seq<S>, s: S)
    requires IsRow(n, qs, row) && s in row && IsReached(n, w, qs)
    ensures IsReached(n, w + [s], row[s])
  {
    hide Reads;
    forall t: nat ensures t in row[s] <==> exists q :: q in n.initials && Reads(n, q, w + [s], t) {
      if t in row[s] {
        var u :| OnSymbol(n, qs, s, u) && Reads(n, u, [], t);
        var v :| v in qs && SymEdge(n, v, s, u);
        var q :| q in n.initials && Reads(n, q, w, v);
        ReadsSym(n, v, s, u, [], t);
        ReadsJoin(n, q, w, v, [s] + [], t);
        assert [s] + [] == [s];
      }
      if q :| q in n.initials && Reads(n, q, w + [s], t) {
        ReachedByMore(n, qs, w, s, q, t);
      }
    }
  }

  lemma RowReachable<S(!new)>(n: NFA<S>, qs: set<nat>, row: map<S, set<nat>>, s: S)
    requires Ok(n) && SetOk(n, qs) && IsRow(n, qs, row) && s in row && StatesOf(n, row[s]) && Closed(n, row[s])
    ensures SetOk(n, row[s])
  {
    hide Ok, StatesOf, Closed, IsRow, IsReached;
    var w: seq<S> :| IsReached(n, w, qs);
    RowReached(n, qs, row, w, s);
    RowNotEmpty(n, qs, row, s);
  }

  lemma ReachedByMore<S(!new)>(n: NFA<S>, qs: set<nat>, w: seq<S>, s: S, q: nat, t: nat)
    requires IsReached(n, w, qs) && q in n.initials && Reads(n, q, w + [s], t)
    ensures AfterSymbol(n, qs, s, t)
  {
    var p :| Follows(n, q, p) && Word(p) == w + [s] && End(q, p) == t;
    var v, u := SplitLast(n, q, p, w, s);
    assert OnSymbol(n, qs, s, u);
  }

  // ----- Numbering -----

  ghost predicate Numbered(index: map<set<nat>, nat>, count: nat) {
    && (forall x, y :: x in index && y in index && index[x] == index[y] ==> x == y)
    && (forall x :: x in index ==> index[x] < count)
    && (forall k: nat :: k < count ==> Used(index, k))
  }

  ghost predicate Used(index: map<set<nat>, nat>, k: nat) {
    exists x :: x in index && index[x] == k
  }

  // The initial set is 0, the others follow in some order.
  method Number(sets: set<set<nat>>, initial: set<nat>) returns (index: map<set<nat>, nat>, count: nat)
    requires initial in sets
    ensures index.Keys == sets && index[initial] == 0 && Numbered(index, count)
  {
    index, count := map[initial := 0], 1;
    var rest := sets - {initial};
    assert Numbered(index, count) by { assert initial in index && index[initial] == 0; }
    while rest != {}
      invariant rest <= sets - {initial} && index.Keys == sets - rest
      invariant initial in index && index[initial] == 0 && Numbered(index, count)
      decreases rest
    {
      var qs :| qs in rest;
      NumberMore(index, count, qs);
      index, count := index[qs := count], count + 1;
      rest := rest - {qs};
    }
  }

  lemma NumberMore(index: map<set<nat>, nat>, count: nat, qs: set<nat>)
    requires Numbered(index, count) && qs !in index
    ensures Numbered(index[qs := count], count + 1)
  {
    var index' := index[qs := count];
    forall k: nat | k < count + 1 ensures Used(index', k) {
      if k < count {
        assert Used(index, k);
        var x :| x in index && index[x] == k;
        assert x in index' && index'[x] == k;
      } else {
        assert qs in index' && index'[qs] == k;
      }
    }
  }

  // The automaton over the numbered sets.
  ghost predicate IsSubsetDfa<S(!new)>(n: NFA<S>, table: Table<S>, index: map<set<nat>, nat>, count: nat, initial: set<nat>, d: DFA<S>) {
    && index.Keys == table.Keys && Numbered(index, count) && initial in index && index[initial] == 0
    && d.initial == 0 && d.sink == count && |d.trans| == count + 1 && d.trans[count] == map[]
    && (forall qs :: qs in table && qs in index ==> RowBuilt(table, index, d.trans, qs))
    && (forall q: nat :: q in d.acceptings <==> exists qs :: qs in index && index[qs] == q && qs * n.acceptings != {})
  }

  ghost predicate RowBuilt<S(!new)>(table: Table<S>, index: map<set<nat>, nat>, trans: seq<map<S, nat>>, qs: set<nat>) {
    && qs in table && qs in index && index[qs] < |trans|
    && trans[index[qs]].Keys == table[qs].Keys
    && forall s :: s in table[qs] ==> table[qs][s] in index && trans[index[qs]][s] == index[table[qs][s]]
  }

  method IndexRow<S(==,!new)>(row: map<S, set<nat>>, index: map<set<nat>, nat>, sink: nat) returns (out: map<S, nat>)
    requires forall s :: s in row ==> row[s] in index
    ensures out.Keys == row.Keys && forall s :: s in row ==> out[s] == index[row[s]]
  {
    out := map[];
    var rest := row.Keys;
    while rest != {}
      invariant rest <= row.Keys && out.Keys == row.Keys - rest
      invariant forall s :: s in out ==> out[s] == index[row[s]]
      decreases rest
    {
      var s :| s in rest;
      out := out[s := if row[s] in index then index[row[s]] else sink];
      rest := rest - {s};
    }
  }

  method BuildDfa<S(==,!new)>(n: NFA<S>, table: Table<S>, initial: set<nat>) returns (d: DFA<S>, ghost index: map<set<nat>, nat>, ghost count: nat)
    requires initial in table && Pending(table, [])
    ensures IsSubsetDfa(n, table, index, count, initial, d)
  {
    var numbers, sink := Number(table.Keys, initial);
    index, count := numbers, sink;
    var trans: seq<map<S, nat>> := seq(sink + 1, k => map[]);
    var acceptings: set<nat> := {};
    var rest := table.Keys;
    while rest != {}
      invariant rest <= table.Keys && |trans| == sink + 1 && trans[sink] == map[]
      invariant forall qs :: qs in table && qs !in rest ==> RowBuilt(table, numbers, trans, qs)
      invariant forall q: nat :: q in acceptings <==> AcceptingSet(n, numbers, table.Keys - rest, q)
      decreases rest
    {
      var qs :| qs in rest;
      var row := IndexRow(table[qs], numbers, sink);
      ghost var before := trans;
      trans := trans[numbers[qs] := row];
      forall x | x in table && x !in rest - {qs} ensures RowBuilt(table, numbers, trans, x) {
        assert x != qs ==> RowBuilt(table, numbers, before, x);
      }
      ghost var accepted := acceptings;
      if qs * n.acceptings != {} {
        acceptings := acceptings + {numbers[qs]};
      }
      forall q: nat ensures q in acceptings <==> AcceptingSet(n, numbers, table.Keys - (rest - {qs}), q) {
        assert table.Keys - (rest - {qs}) == (table.Keys - rest) + {qs};
        AcceptingMore(n, numbers, table.Keys - rest, qs, q);
      }
      rest := rest - {qs};
    }
    assert table.Keys - rest == table.Keys;
    d := DFA(0, acceptings, sink, trans);
  }

  ghost predicate AcceptingSet<S(!new)>(n: NFA<S>, index: map<set<nat>, nat>, sets: set<set<nat>>, q: nat) {
    exists qs :: qs in sets && qs in index && index[qs] == q && qs * n.acceptings != {}
  }

  lemma AcceptingMore<S(!new)>(n: NFA<S>, index: map<set<nat>, nat>, sets: set<set<nat>>, qs: set<nat>, q: nat)
    requires qs in index
    ensures AcceptingSet(n, index, sets + {qs}, q) <==> AcceptingSet(n, index, sets, q) || (index[qs] == q && qs * n.acceptings != {})
  {
  }

  // ----- Correctness -----

  // After w the deterministic automaton is at the number of the set of all
  // states w reaches, or in the sink if there are none.
  lemma {:induction false} RunTracks<S(!new)>(n: NFA<S>, table: Table<S>, index: map<set<nat>, nat>, count: nat, initial: set<nat>, d: DFA<S>, w: seq<S>)
    returns (qs: set<nat>)
    requires Ok(n) && IsClosure(n, n.initials, initial) && TableOk(n, table) && IsSubsetDfa(n, table, index, count, initial, d)
    ensures IsReached(n, w, qs)
    ensures if qs == {} then Run(d, d.initial, w) == d.sink else qs in index && Run(d, d.initial, w) == index[qs]
    decreases |w|
  {
    hide Ok, IsReached, IsRow, RowBuilt, Numbered;
    if w == [] {
      qs := initial;
      InitialReached(n, initial);
    } else {
      var v, s := w[..|w| - 1], w[|w| - 1];
      assert w == v + [s];
      var qs0 := RunTracks(n, table, index, count, initial, d, v);
      RunAppend(d, d.initial, v, [s]);
      var q := Run(d, d.initial, v);
      assert Run(d, q, [s]) == Step(d, q, s) by { RunOne(d, q, s); }
      if qs0 == {} {
        qs := {};
        NothingReached(n, qs0, v, s);
      } else {
        assert EntryOk(n, qs0, table[qs0]) && RowBuilt(table, index, d.trans, qs0);
        if s in table[qs0] {
          qs := table[qs0][s];
          RowReached(n, qs0, table[qs0], v, s);
          RowNotEmpty(n, qs0, table[qs0], s);
          StepOnRow(table, index, d, qs0, s);
        } else {
          qs := {};
          NoSymbol(n, qs0, table[qs0], s);
          NothingReached(n, qs0, v, s);
          StepOffRow(table, index, d, qs0, s);
        }
      }
    }
  }

  lemma {:induction false} RunOne<S(!new)>(d: DFA<S>, q: nat, s: S)
    ensures Run(d, q, [s]) == Step(d, q, s)
  {
    assert [s][1..] == [];
  }

  lemma InitialReached<S(!new)>(n: NFA<S>, initial: set<nat>)
    requires Ok(n) && IsClosure(n, n.initials, initial)
    ensures IsReached(n, [], initial) && initial != {}
  {
    var q :| q in n.initials;
    ReachedSelf(n, n.initials, q);
  }

  lemma NothingReached<S(!new)>(n: NFA<S>, qs: set<nat>, w: seq<S>, s: S)
    requires IsReached(n, w, qs) && !HasSymbol(n, qs, s)
    ensures IsReached(n, w + [s], {})
  {
    forall t: nat, q | q in n.initials ensures !Reads(n, q, w + [s], t) {
      NotAfter(n, qs, s, t);
      if Reads(n, q, w + [s], t) { ReachedByMore(n, qs, w, s, q, t); }
    }
  }

  lemma NotAfter<S(!new)>(n: NFA<S>, qs: set<nat>, s: S, t: nat)
    requires !HasSymbol(n, qs, s)
    ensures !AfterSymbol(n, qs, s, t)
  {
    forall u: nat ensures !OnSymbol(n, qs, s, u) { NotOn(n, qs, s, u); }
  }

  lemma NoSymbol<S(!new)>(n: NFA<S>, qs: set<nat>, row: map<S, set<nat>>, s: S)
    requires IsRow(n, qs, row) && s !in row
    ensures !HasSymbol(n, qs, s)
  {
  }

  lemma RowNotEmpty<S(!new)>(n: NFA<S>, qs: set<nat>, row: map<S, set<nat>>, s: S)
    requires Ok(n) && IsRow(n, qs, row) && s in row
    ensures row[s] != {}
  {
    var u := SomeTarget(n, qs, row, s);
  }

  // A symbol of a row leads to some state, which is in the set the row gives.
  lemma SomeTarget<S(!new)>(n: NFA<S>, qs: set<nat>, row: map<S, set<nat>>, s: S) returns (t: nat)
    requires Ok(n) && IsRow(n, qs, row) && s in row
    ensures t in row[s] && OnSymbol(n, qs, s, t)
  {
    assert HasSymbol(n, qs, s);
    var q :| q in qs && q < |n.trans| && s in n.trans[q];
    t :| t in n.trans[q][s];
    assert SymEdge(n, q, s, t);
    ReadsNothing(n, t);
    assert AfterSymbol(n, qs, s, t);
  }

  lemma StepOnRow<S(!new)>(table: Table<S>, index: map<set<nat>, nat>, d: DFA<S>, qs: set<nat>, s: S)
    requires RowBuilt(table, index, d.trans, qs) && s in table[qs]
    ensures table[qs][s] in index && Step(d, index[qs], s) == index[table[qs][s]]
  {
  }

  lemma StepOffRow<S(!new)>(table: Table<S>, index: map<set<nat>, nat>, d: DFA<S>, qs: set<nat>, s: S)
    requires RowBuilt(table, index, d.trans, qs) && s !in table[qs]
    ensures Step(d, index[qs], s) == d.sink
  {
  }

  lemma SubsetLanguage<S(!new)>(n: NFA<S>, table: Table<S>, index: map<set<nat>, nat>, count: nat, initial: set<nat>, d: DFA<S>, w: seq<S>)
    requires Ok(n) && IsClosure(n, n.initials, initial) && TableOk(n, table) && IsSubsetDfa(n, table, index, count, initial, d)
    ensures Recognizes(d, w) <==> Accepts(n, w)
  {
    hide Ok, TableOk, RowBuilt;
    var qs := RunTracks(n, table, index, count, initial, d, w);
    if Recognizes(d, w) {
      var xs :| xs in index && index[xs] == Run(d, d.initial, w) && xs * n.acceptings != {};
      assert index[xs] < count;
      assert xs == qs;
      var t :| t in qs * n.acceptings;
    }
    if Accepts(n, w) {
      var q, t :| q in n.initials && t in n.acceptings && Reads(n, q, w, t);
      assert t in qs * n.acceptings;
    }
  }

  // Each set of states some word reaches is a key exactly once.
  lemma AllReachedAreKeys<S(!new)>(n: NFA<S>, table: Table<S>, index: map<set<nat>, nat>, count: nat, initial: set<nat>, d: DFA<S>, qs: set<nat>)
    requires Ok(n) && IsClosure(n, n.initials, initial) && TableOk(n, table) && IsSubsetDfa(n, table, index, count, initial, d)
    ensures qs in table <==> qs != {} && Reachable(n, qs)
  {
    hide Ok, RowBuilt, IsRow;
    if Reachable(n, qs) && qs != {} {
      var w: seq<S> :| IsReached(n, w, qs);
      var xs := RunTracks(n, table, index, count, initial, d, w);
      assert xs == qs;
    }
    if qs in table {
      assert EntryOk(n, qs, table[qs]);
      var w: seq<S> :| IsReached(n, w, qs);
      var xs := RunTracks(n, table, index, count, initial, d, w);
      assert xs == qs;
    }
  }

  // ----- The whole conversion -----

  // No symbol leads to where one can be without reading.
  ghost predicate Fresh<S(!new)>(n: NFA<S>) {
    forall q: nat, s, t: nat :: SymEdge(n, q, s, t) ==> !ReachedFrom(n, n.initials, t)
  }

  lemma NotBackToInitial<S(!new)>(n: NFA<S>, initial: set<nat>, qs: set<nat>, row: map<S, set<nat>>, s: S)
    requires Ok(n) && Fresh(n) && IsClosure(n, n.initials, initial) && IsRow(n, qs, row) && s in row
    ensures row[s] != initial
  {
    hide Ok, IsRow;
    var t := SomeTarget(n, qs, row, s);
    var q :| q in qs && SymEdge(n, q, s, t);
  }

  lemma SubsetOk<S(!new)>(n: NFA<S>, table: Table<S>, index: map<set<nat>, nat>, count: nat, initial: set<nat>, d: DFA<S>)
    requires Ok(n) && Fresh(n) && IsClosure(n, n.initials, initial) && TableOk(n, table) && IsSubsetDfa(n, table, index, count, initial, d)
    ensures DfaOk(d)
  {
    hide Ok, Fresh, IsClosure, IsRow, TableOk, RowBuilt;
    forall q: nat, s | q < |d.trans| && s in d.trans[q] ensures d.trans[q][s] < |d.trans| && d.trans[q][s] != d.initial {
      var qs := SetBehind(n, table, index, count, initial, d, q, s);
      NotBackToInitial(n, initial, qs, table[qs], s);
    }
  }

  // The set a state with a transition stands for.
  lemma SetBehind<S(!new)>(n: NFA<S>, table: Table<S>, index: map<set<nat>, nat>, count: nat, initial: set<nat>, d: DFA<S>, q: nat, s: S)
    returns (qs: set<nat>)
    requires TableOk(n, table) && IsSubsetDfa(n, table, index, count, initial, d) && q < |d.trans| && s in d.trans[q]
    ensures qs in table && IsRow(n, qs, table[qs]) && s in table[qs]
    ensures table[qs][s] in index && d.trans[q][s] == index[table[qs][s]]
  {
    hide IsRow, SetOk;
    assert Used(index, q);
    qs :| qs in index && index[qs] == q;
    assert EntryOk(n, qs, table[qs]) && RowBuilt(table, index, d.trans, qs);
  }

  method Deterministic<S(==,!new)>(n: NFA<S>) returns (d: DFA<S>)
    requires Ok(n)
    ensures forall w :: Recognizes(d, w) <==> Accepts(n, w)
    ensures Fresh(n) ==> DfaOk(d)
    ensures Labels(d) <= Symbols(n)
  {
    hide Labels, Symbols, Ok, IsSubsetDfa, TableOk, Recognizes, Accepts, Fresh, DfaOk, Pending, IsClosure;
    assert StatesOf(n, n.initials) by { InitialStates(n); }
    var initial := Closure(n, n.initials);
    InitialSetOk(n, initial);
    var table := Explore(n, initial);
    ghost var index, count;
    d, index, count := BuildDfa(n, table, initial);
    forall w ensures Recognizes(d, w) <==> Accepts(n, w) {
      SubsetLanguage(n, table, index, count, initial, d, w);
    }
    if Fresh(n) { SubsetOk(n, table, index, count, initial, d); }
    SubsetLabels(n, table, index, count, initial, d);
  }

  lemma SubsetLabels<S(!new)>(n: NFA<S>, table: Table<S>, index: map<set<nat>, nat>, count: nat, initial: set<nat>, d: DFA<S>)
    requires TableOk(n, table) && IsSubsetDfa(n, table, index, count, initial, d)
    ensures Labels(d) <= Symbols(n)
  {
    hide IsRow, TableOk, IsSubsetDfa;
    forall s | s in Labels(d) ensures s in Symbols(n) {
      var q :| 0 <= q < |d.trans| && s in d.trans[q];
      var qs := SetBehind(n, table, index, count, initial, d, q, s);
      RowSymbols(n, qs, table[qs], s);
    }
  }

  lemma RowSymbols<S(!new)>(n: NFA<S>, qs: set<nat>, row: map<S, set<nat>>, s: S)
    requires IsRow(n, qs, row) && s in row
    ensures s in Symbols(n)
  {
    assert HasSymbol(n, qs, s);
  }

  lemma InitialStates<S(!new)>(n: NFA<S>)
    requires Ok(n)
    ensures StatesOf(n, n.initials)
  {
  }

  lemma InitialSetOk<S(!new)>(n: NFA<S>, initial: set<nat>)
    requires Ok(n) && IsClosure(n, n.initials, initial) && StatesOf(n, initial)
    ensures SetOk(n, initial)
  {
    hide Ok;
    ClosureIsClosed(n, n.initials, initial);
    InitialReached(n, initial);
  }
}
